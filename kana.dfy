/** Reading extraction and script normalisation (src/containers/Game.js:90-116).
    The morphological analyser is abstracted: its output is a sequence of
    tokens, each with a word type and, optionally, a katakana reading. */
module Kana {
  import opened AppError

  datatype Option<T> = None | Some(value: T)

  /** The analyser's `word_type`: a dictionary word or an unknown one. */
  datatype WordType = Known | Unknown

  datatype Token = Token(wordType: WordType, reading: Option<string>)

  /** The prolonged sound mark U+30FC; it lies outside the converted range. */
  const ProlongedSoundMark: char := 'ー'

  /** The code points the conversion moves: U+30A1 (small a) to U+30F6 (small ke)
      of the Katakana block. */
  const KatakanaFirst: int := 0x30A1
  const KatakanaLast: int := 0x30F6

  /** The distance between the Katakana block (U+30A0-U+30FF) and the Hiragana
      block (U+3040-U+309F) of the Unicode Standard. */
  const BlockDistance: int := 0x60

  predicate IsConvertedKatakana(c: char) {
    KatakanaFirst <= c as int <= KatakanaLast
  }

  /** The hiragana code points that converted katakana land on: U+3041..U+3096. */
  predicate IsConvertedHiragana(c: char) {
    KatakanaFirst - BlockDistance <= c as int <= KatakanaLast - BlockDistance
  }

  /** One character of the conversion: converted katakana shifted down, the rest kept. */
  function HiraganaOf(c: char): char {
    if IsConvertedKatakana(c) then (c as int - BlockDistance) as char else c
  }

  /** The reverse shift, on the hiragana range only. */
  function KatakanaOf(c: char): char {
    if IsConvertedHiragana(c) then (c as int + BlockDistance) as char else c
  }

  /** The global regular-expression replacement of the source: every character is
      converted on its own, in place, and nothing is added or dropped. */
  function ToHiragana(s: string): (r: string)
    ensures |r| == |s|
    ensures forall i :: 0 <= i < |s| ==> r[i] == HiraganaOf(s[i])
  {
    if s == "" then "" else [HiraganaOf(s[0])] + ToHiragana(s[1..])
  }

  function ToKatakana(s: string): string {
    if s == "" then "" else [KatakanaOf(s[0])] + ToKatakana(s[1..])
  }

  /** The conversion keeps the length, shifts every converted katakana down by the
      block distance and leaves every other character (the prolonged sound mark
      among them) where it was. */
  lemma ToHiraganaPointwise(s: string)
    ensures |ToHiragana(s)| == |s|
    ensures forall i :: 0 <= i < |s| ==>
      (IsConvertedKatakana(s[i]) ==> ToHiragana(s)[i] as int == s[i] as int - BlockDistance) &&
      (!IsConvertedKatakana(s[i]) ==> ToHiragana(s)[i] == s[i])
  {
  }

  /** No converted katakana is left after the conversion. */
  lemma ToHiraganaLeavesNoKatakana(s: string)
    ensures forall i :: 0 <= i < |ToHiragana(s)| ==> !IsConvertedKatakana(ToHiragana(s)[i])
  {
  }

  /** Converting twice is converting once. */
  lemma ToHiraganaIdempotent(s: string)
    ensures ToHiragana(ToHiragana(s)) == ToHiragana(s)
  {
  }

  /** A reading that holds no hiragana of the converted range is recovered from its
      hiragana form by the reverse shift: the conversion loses nothing on it. */
  lemma {:induction false} ToHiraganaRoundTrip(s: string)
    requires forall i :: 0 <= i < |s| ==> !IsConvertedHiragana(s[i])
    ensures ToKatakana(ToHiragana(s)) == s
  {
    if s != "" {
      ToHiraganaRoundTrip(s[1..]);
      assert ToHiragana(s)[1..] == ToHiragana(s[1..]);
    }
  }

  /** The first step of `textToHiragana` after tokenising: the reading of the first
      token, converted to hiragana, or FailedRecognition when there is no token, the
      first token is unknown, or it has no (or an empty) reading. */
  function TextToHiragana(tokens: seq<Token>): (r: Result<string>)
    ensures r.Err? ==> r.code == FailedRecognition
    ensures r.Ok? <==>
      |tokens| > 0 && tokens[0].wordType == Known &&
      tokens[0].reading.Some? && tokens[0].reading.value != ""
    ensures r.Ok? ==> r.value == ToHiragana(tokens[0].reading.value)
    ensures r.Ok? ==> r.value != "" && |r.value| == |tokens[0].reading.value|
    ensures r.Ok? ==> forall i :: 0 <= i < |r.value| ==> !IsConvertedKatakana(r.value[i])
  {
    if |tokens| == 0 || tokens[0].wordType == Unknown then
      Err(FailedRecognition)
    else if tokens[0].reading.None? || tokens[0].reading.value == "" then
      Err(FailedRecognition)
    else
      assert tokens[0].wordType == Known;
      var reading := tokens[0].reading.value;
      ToHiraganaPointwise(reading);
      ToHiraganaLeavesNoKatakana(reading);
      Ok(ToHiragana(reading))
  }

  /** Only the first token matters: the tokens after it never change the outcome. */
  lemma TextToHiraganaFirstTokenOnly(tokens: seq<Token>, rest: seq<Token>)
    requires |tokens| > 0
    ensures TextToHiragana(tokens[..1] + rest) == TextToHiragana(tokens)
  {
    assert (tokens[..1] + rest)[0] == tokens[0];
  }
}
