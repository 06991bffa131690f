/** The chain validator of the game (`checkContinue`, src/containers/Game.js:118-181):
    given the words used so far and a candidate reading in hiragana, decide whether
    the candidate continues the chain, and if not, why. The validator works on
    JavaScript string slices; beside it stand the rules of the game stated on
    characters (HandedOn, Continues, LegalMove), and CheckContinueMeetsRules ties the two. */
module Chain {
  import opened AppError
  import opened Kana

  /** The word every game starts from. */
  const Seed: string := "しりとり"

  /** A word ending in this kana loses the game. */
  const SyllabicN: char := 'ん'

  /** The small kana and their full-size forms. */
  const SmallKana: set<char> := {'ぁ', 'ぃ', 'ぅ', 'ぇ', 'ぉ', 'っ', 'ゃ', 'ゅ', 'ょ', 'ゎ'}

  datatype Verdict = Accepted | Rejected(code: ErrorCode)

  // ---------------------------------------------------------------------------
  // The validator, on string slices as the source computes it

  /** JavaScript `s.slice(-1)`: the last character, or "" for "". */
  function SliceLast(s: string): string {
    if s == "" then "" else s[|s| - 1..]
  }

  /** JavaScript `s.slice(0, 1)`: the first character, or "" for "". */
  function SliceFirst(s: string): string {
    if s == "" then "" else s[..1]
  }

  /** JavaScript `s.slice(0, -1)`: all but the last character, or "" for "". */
  function DropLast(s: string): string {
    if s == "" then "" else s[..|s| - 1]
  }

  /** The small-kana table: each small kana is read as the full-size kana that
      follows it in the Hiragana block; every other character is left alone. */
  function Enlarge(c: char): (r: char)
    ensures r != c <==> c in SmallKana
    ensures r != c ==> r as int == c as int + 1
    ensures r !in SmallKana
  {
    match c
    case 'ぁ' => 'あ'
    case 'ぃ' => 'い'
    case 'ぅ' => 'う'
    case 'ぇ' => 'え'
    case 'ぉ' => 'お'
    case 'っ' => 'つ'
    case 'ゃ' => 'や'
    case 'ゅ' => 'ゆ'
    case 'ょ' => 'よ'
    case 'ゎ' => 'わ'
    case _ => c
  }

  /** The tail of the previous word: its last character, or the character before
      it when that last one is a prolonged sound mark. Exactly one mark is skipped,
      so a word ending in two marks hands on a mark, and the word made of a single
      mark hands on nothing. */
  function Tail(previousWord: string): (t: string)
    ensures |t| <= 1
    ensures previousWord == "" ==> t == ""
    ensures previousWord != "" && previousWord[|previousWord| - 1] != ProlongedSoundMark ==>
      t == [previousWord[|previousWord| - 1]]
    ensures previousWord == [ProlongedSoundMark] ==> t == ""
    ensures |previousWord| >= 2 && previousWord[|previousWord| - 1] == ProlongedSoundMark ==>
      t == [previousWord[|previousWord| - 2]]
  {
    var last := SliceLast(previousWord);
    if last == [ProlongedSoundMark] then SliceLast(DropLast(previousWord)) else last
  }

  /** The `switch` on the tail: a one-character tail goes through the small-kana table. */
  function CanonicalTail(tail: string): (r: string)
    ensures |r| == |tail|
    ensures |tail| == 1 ==> r == [Enlarge(tail[0])]
    ensures |tail| == 1 ==> r[0] !in SmallKana && (r[0] == tail[0] || tail[0] in SmallKana)
    ensures |tail| != 1 ==> r == tail
  {
    if |tail| == 1 then [Enlarge(tail[0])] else tail
  }

  /** `checkContinue`: FailedRecognition for an empty candidate, then EndGame for a
      candidate ending in ん, then NotChain when its first character is not the
      canonical tail of the last word, then AlreadyExists when it was used before;
      otherwise accepted. The source reads the last used word only after the empty
      check, and throws when there is none; hence the precondition. What each
      verdict means in terms of the rules of the game is CheckContinueMeetsRules. */
  function CheckContinue(previousWords: seq<string>, nextWord: string): (v: Verdict)
    requires nextWord != "" ==> |previousWords| > 0
    ensures v == Rejected(FailedRecognition) <==> nextWord == ""
    ensures v == Accepted ==> nextWord !in previousWords
  {
    if nextWord == "" then
      Rejected(FailedRecognition)
    else
      var previousWord := previousWords[|previousWords| - 1];
      var lastWord := CanonicalTail(Tail(previousWord));
      if SliceLast(nextWord) == [SyllabicN] then
        Rejected(EndGame)
      else if lastWord != SliceFirst(nextWord) then
        Rejected(NotChain)
      else if nextWord in previousWords then
        Rejected(AlreadyExists)
      else
        Accepted
  }

  /** Each verdict holds exactly when the rules say so, in the fixed order: EndGame
      for a word ending in ん whether or not it also fails to chain or repeats a
      word, NotChain for one that does not continue the last word, AlreadyExists for
      one that continues it but was used, and acceptance for a legal move. */
  lemma CheckContinueMeetsRules(previousWords: seq<string>, nextWord: string)
    requires nextWord != "" ==> |previousWords| > 0
    ensures CheckContinue(previousWords, nextWord) == Rejected(EndGame) <==> EndsInN(nextWord)
    ensures CheckContinue(previousWords, nextWord) == Rejected(NotChain) <==>
      nextWord != "" && !EndsInN(nextWord) && !Continues(previousWords[|previousWords| - 1], nextWord)
    ensures CheckContinue(previousWords, nextWord) == Rejected(AlreadyExists) <==>
      nextWord != "" && !EndsInN(nextWord) && Continues(previousWords[|previousWords| - 1], nextWord) &&
      nextWord in previousWords
    ensures CheckContinue(previousWords, nextWord) == Accepted <==> LegalMove(previousWords, nextWord)
  {
    if nextWord != "" {
      TailIsHandedOn(previousWords[|previousWords| - 1]);
    }
  }

  // ---------------------------------------------------------------------------
  // The rules of the game, on characters

  /** The kana a word hands on to the next one: its last character, looking
      through one prolonged sound mark, read full-size; none if nothing is left. */
  function HandedOn(word: string): Option<char> {
    var body := if word != "" && word[|word| - 1] == ProlongedSoundMark then word[..|word| - 1] else word;
    if body == "" then None else Some(Enlarge(body[|body| - 1]))
  }

  predicate EndsInN(w: string) {
    w != "" && w[|w| - 1] == SyllabicN
  }

  /** `w` starts with the kana `previousWord` hands on. */
  predicate Continues(previousWord: string, w: string) {
    w != "" && HandedOn(previousWord) == Some(w[0])
  }

  /** A legal next word: non-empty, not ending in ん, continuing the last word, new. */
  predicate LegalMove(history: seq<string>, w: string) {
    |history| > 0 && w != "" && !EndsInN(w) && Continues(history[|history| - 1], w) && w !in history
  }

  /** The canonical tail is the handed-on kana as a string ("" when there is none). */
  lemma TailIsHandedOn(previousWord: string)
    ensures CanonicalTail(Tail(previousWord)) ==
      match HandedOn(previousWord) case None => "" case Some(c) => [c]
  {
    if previousWord != "" && previousWord[|previousWord| - 1] == ProlongedSoundMark && |previousWord| >= 2 {
      assert previousWord[..|previousWord| - 1][|previousWord| - 2] == previousWord[|previousWord| - 2];
    }
  }

  // ---------------------------------------------------------------------------
  // The history of a game

  predicate NoDuplicates(h: seq<string>) {
    forall i, j :: 0 <= i < j < |h| ==> h[i] != h[j]
  }

  /** A history the game can build: the seed word, then legal moves only. */
  predicate WellFormedHistory(h: seq<string>) {
    if |h| <= 1 then h == [Seed]
    else WellFormedHistory(h[..|h| - 1]) && LegalMove(h[..|h| - 1], h[|h| - 1])
  }

  /** A game starts from a well-formed history. */
  lemma SeedIsWellFormed()
    ensures WellFormedHistory([Seed])
  {
  }

  /** A well-formed history starts with the seed word. */
  lemma {:induction false} WellFormedHistoryStartsWithSeed(h: seq<string>)
    requires WellFormedHistory(h)
    ensures |h| > 0 && h[0] == Seed
  {
    if |h| > 1 {
      WellFormedHistoryStartsWithSeed(h[..|h| - 1]);
    }
  }

  /** Legal moves never repeat a word. */
  lemma {:induction false} WellFormedHistoryDistinct(h: seq<string>)
    requires WellFormedHistory(h)
    ensures NoDuplicates(h)
  {
    if |h| > 1 {
      var p := h[..|h| - 1];
      WellFormedHistoryDistinct(p);
      forall i, j | 0 <= i < j < |h|
        ensures h[i] != h[j]
      {
        if j < |h| - 1 {
          assert h[i] == p[i] && h[j] == p[j];
        } else {
          assert h[i] == p[i] && p[i] in p;
        }
      }
    }
  }

  /** Appending an accepted candidate keeps the history well formed. */
  lemma AcceptedExtendsHistory(h: seq<string>, w: string)
    requires WellFormedHistory(h)
    requires CheckContinue(h, w) == Accepted
    ensures WellFormedHistory(h + [w])
  {
    WellFormedHistoryStartsWithSeed(h);
    CheckContinueMeetsRules(h, w);
    assert (h + [w])[..|h|] == h;
  }

  /** Worked cases of acceptance: a chain from the seed word, and a prolonged
      sound mark looked through. */
  lemma AcceptedExamples()
    ensures CheckContinue([Seed], "りんご") == Accepted
    ensures CheckContinue(["かー"], "からす") == Accepted
  {
  }

  /** A worked case of the small-kana table: ちゃ hands on や. */
  lemma SmallKanaExample()
    ensures CheckContinue(["ちゃ"], "やま") == Accepted
  {
  }

  /** Worked cases of rejection: a word ending in ん, a word that does not chain,
      and a repeated word. */
  lemma RejectedExamples()
    ensures CheckContinue([Seed], "ごはん") == Rejected(EndGame)
    ensures CheckContinue([Seed], "ごりら") == Rejected(NotChain)
    ensures CheckContinue([Seed, "りす", "すいか", "かり"], "りす") == Rejected(AlreadyExists)
  {
  }
}
