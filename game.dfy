/** The game session and its phase machine (src/containers/Game.js:7-88, 183-261).
    The React component's state becomes the fields of `Session`; the recogniser's
    `recording` flag, the one pending timer and the hand-back to the title screen
    become fields too. Each asynchronous callback of the source (an interim
    result, a final result, the end of recognition, a timer firing) is one method,
    processed to completion before the next. */
module Game {
  import opened AppError
  import opened Kana
  import opened Chain

  datatype Phase = Reset | Wait | Record | Check | Result | Next

  /** What the analyser makes of a final transcript: its tokens, or a failure to
      build the tokenizer (an error outside the game's taxonomy). */
  datatype Analysis = Tokens(tokens: seq<Token>) | AnalyzerFailed

  /** The follow-up RESULT schedules: the next round, or the return to the title. */
  datatype Timer = AdvanceTimer | TitleTimer

  /** The message shown for a round-ending error. */
  function Message(code: ErrorCode): (m: string)
    requires code != FailedRecognition
    ensures m != ""
  {
    match code
    case EndGame => "「ん」で終わったので負けです"
    case NotChain => "しりとりに失敗しています"
    case AlreadyExists => "既に使った単語です"
  }

  /** Each round-ending error has a message of its own. */
  lemma MessagesDistinct(a: ErrorCode, b: ErrorCode)
    requires a != FailedRecognition && b != FailedRecognition
    ensures Message(a) == Message(b) <==> a == b
  {
  }

  /** What `nextWord` holds once a final result is analysed: the hiragana reading,
      or nothing (JavaScript `undefined`, here "") when extraction failed. */
  function Candidate(tokens: seq<Token>): (w: string)
    ensures w == "" <==> TextToHiragana(tokens).Err?
    ensures TextToHiragana(tokens).Ok? ==> w == TextToHiragana(tokens).value
  {
    match TextToHiragana(tokens)
    case Ok(reading) => reading
    case Err(_) => ""
  }

  class Session {
    var currentPhase: Phase
    /** The candidate of the round, "" when there is none. */
    var nextWord: string
    /** The words used so far, the most recent last. */
    var previousWords: seq<string>
    /** The message of a failed round, "" otherwise. */
    var error: string
    /** The recogniser's flag: it is listening. */
    var recording: bool
    /** The follow-up scheduled on entering RESULT that has not fired yet. */
    var pending: Option<Timer>
    /** Control went back to the title screen and the game was unmounted. */
    var atTitle: bool

    /** The state a round in RESULT holds: the verdict on the candidate, and the
        message and follow-up that go with it. */
    ghost predicate ResultHeld()
      reads this`previousWords, this`nextWord, this`error, this`pending
      requires WellFormedHistory(previousWords)
    {
      var v := CheckContinue(previousWords, nextWord);
      (pending == Some(AdvanceTimer) && v == Accepted && error == "") ||
      (pending == Some(TitleTimer) && v.Rejected? && v.code != FailedRecognition && error == Message(v.code))
    }

    /** The session invariant: the history is the seed followed by legal moves;
        between events the phase is WAIT, RECORD or RESULT (RESET, CHECK and NEXT
        are passed through); WAIT always listens and only WAIT and RECORD may; a
        timer is pending exactly in RESULT; a candidate and a message exist only
        in RESULT, where they agree with the verdict. */
    ghost predicate Valid()
      reads this
    {
      WellFormedHistory(previousWords) &&
      (atTitle ==> !recording && pending == None) &&
      (!atTitle ==> currentPhase == Wait || currentPhase == Record || currentPhase == Result) &&
      (!atTitle && currentPhase == Wait ==> recording) &&
      (recording ==> !atTitle && (currentPhase == Wait || currentPhase == Record)) &&
      (!atTitle ==> (pending.Some? <==> currentPhase == Result)) &&
      (!atTitle && currentPhase != Result ==> nextWord == "" && error == "") &&
      (!atTitle && currentPhase == Result ==> ResultHeld())
    }

    /** Between events the history is the seed word followed by distinct words. */
    lemma HistoryInvariant()
      requires Valid()
      ensures |previousWords| > 0 && previousWords[0] == Seed
      ensures NoDuplicates(previousWords)
    {
      WellFormedHistoryStartsWithSeed(previousWords);
      WellFormedHistoryDistinct(previousWords);
    }

    /** Construction and mounting: the initial state, then RESET, which lands in WAIT. */
    constructor ()
      ensures Valid()
      ensures currentPhase == Wait && previousWords == [Seed] && nextWord == "" && error == ""
      ensures recording && pending == None && !atTitle
    {
      currentPhase, nextWord, previousWords, error := Reset, "", [Seed], "";
      recording, pending, atTitle := false, None, false;
      new;
      SeedIsWellFormed();
      MovePhase(Reset);
    }

    /** `startRecord`: start the recogniser, a no-op while it is already recording. */
    method StartRecord()
      modifies this`recording
      ensures recording
    {
      if recording {
        return;
      }
      recording := true;
    }

    /** `stopRecord`. */
    method StopRecord()
      modifies this`recording
      ensures !recording
    {
      recording := false;
    }

    /** `backTitle`: hand control back; unmounting the game stops the recogniser. */
    method BackTitle()
      modifies this`atTitle, this`recording
      ensures atTitle && !recording
    {
      atTitle := true;
      StopRecord();
    }

    /** `movePhase`: set the phase, then run its entry action. RESET restores the
        initial state and NEXT appends the candidate, both going on to WAIT; WAIT
        starts the recogniser and CHECK stops it; RESULT schedules the next round
        when there is no error and the return to the title otherwise. */
    method MovePhase(next: Phase)
      requires !atTitle
      requires next == Result ==> pending == None
      modifies this
      decreases if next == Reset || next == Next then 1 else 0
      ensures !atTitle
      ensures currentPhase == if next == Reset || next == Next then Wait else next
      ensures previousWords ==
        match next
        case Reset => [Seed]
        case Next => old(previousWords) + [old(nextWord)]
        case _ => old(previousWords)
      ensures nextWord == if next == Reset || next == Next then "" else old(nextWord)
      ensures error == if next == Reset then "" else old(error)
      ensures recording ==
        if next == Reset || next == Next || next == Wait then true
        else if next == Check then false
        else old(recording)
      ensures pending ==
        if next == Result then Some(if old(error) == "" then AdvanceTimer else TitleTimer)
        else old(pending)
    {
      currentPhase := next;
      match next {
        case Reset =>
          currentPhase, nextWord, previousWords, error := Reset, "", [Seed], "";
          MovePhase(Wait);
        case Wait =>
          StartRecord();
        case Check =>
          StopRecord();
        case Next =>
          var nextPreviousWords := previousWords + [nextWord];
          nextWord, previousWords := "", nextPreviousWords;
          MovePhase(Wait);
        case Result =>
          if error == "" {
            pending := Some(AdvanceTimer);
          } else {
            pending := Some(TitleTimer);
          }
        case Record =>
      }
    }

    /** An interim (non-final) result: the phase becomes RECORD. */
    method OnInterimResult()
      requires Valid() && recording
      modifies this
      ensures Valid()
      ensures currentPhase == Record && recording && !atTitle
      ensures previousWords == old(previousWords) && nextWord == old(nextWord)
      ensures error == old(error) && pending == old(pending)
    {
      MovePhase(Record);
    }

    /** The state a final result leaves once candidate `w` is judged: a
        FailedRecognition verdict waits for the next word, recording, with no
        candidate; acceptance holds `w` in RESULT with no error and the next-round
        timer; the other verdicts hold `w` in RESULT with their message and the
        title timer. */
    ghost predicate Judged(w: string)
      reads this
      requires WellFormedHistory(previousWords)
    {
      var v := CheckContinue(previousWords, w);
      !atTitle &&
      (v == Rejected(FailedRecognition) ==>
        currentPhase == Wait && recording && nextWord == "" && error == "" && pending == None) &&
      (v == Accepted ==>
        currentPhase == Result && !recording && nextWord == w && error == "" && pending == Some(AdvanceTimer)) &&
      (v.Rejected? && v.code != FailedRecognition ==>
        currentPhase == Result && !recording && nextWord == w && error == Message(v.code) &&
        pending == Some(TitleTimer))
    }

    /** A final result: CHECK stops the recogniser; the reading is extracted and
        judged. A failed extraction or an empty candidate goes back to WAIT with no
        candidate; an accepted candidate enters RESULT with no error; EndGame,
        NotChain and AlreadyExists store their message and enter RESULT. An analyser
        failure, outside the taxonomy, returns to the title. */
    method OnFinalResult(analysis: Analysis)
      requires Valid() && recording
      modifies this
      ensures Valid()
      ensures previousWords == old(previousWords)
      ensures analysis.AnalyzerFailed? ==> atTitle && !recording && pending == None
      ensures analysis.Tokens? ==> Judged(Candidate(analysis.tokens))
    {
      MovePhase(Check);
      if analysis.AnalyzerFailed? {
        // What the handler does after this acts on an unmounted game and changes nothing.
        BackTitle();
        return;
      }
      var hiragana := "";
      match TextToHiragana(analysis.tokens) {
        case Ok(reading) =>
          hiragana := reading;
        case Err(_) =>
          MovePhase(Wait);
      }
      nextWord := hiragana;
      JudgeCandidate();
    }

    /** The second half of the final-result handler: `checkContinue` on the stored
        candidate, then the reaction to its verdict. */
    method JudgeCandidate()
      requires WellFormedHistory(previousWords)
      requires !atTitle && error == "" && pending == None
      requires nextWord != "" ==> currentPhase == Check && !recording
      requires nextWord == "" ==> currentPhase == Wait && recording
      modifies this
      ensures previousWords == old(previousWords)
      ensures Judged(old(nextWord))
    {
      var verdict := CheckContinue(previousWords, nextWord);
      match verdict {
        case Accepted =>
          MovePhase(Result);
        case Rejected(code) =>
          if code == FailedRecognition {
            MovePhase(Wait);
          } else {
            error := Message(code);
            MovePhase(Result);
          }
      }
    }

    /** The recogniser stopped: it is restarted only in WAIT. */
    method OnRecognitionEnd()
      requires Valid()
      modifies this
      ensures Valid()
      ensures recording == (!atTitle && currentPhase == Wait)
      ensures currentPhase == old(currentPhase) && atTitle == old(atTitle)
      ensures previousWords == old(previousWords) && nextWord == old(nextWord)
      ensures error == old(error) && pending == old(pending)
    {
      if atTitle {
        // The recogniser was released on unmounting; nothing changes.
        return;
      }
      StopRecord();
      if currentPhase == Wait {
        StartRecord();
        return;
      }
    }

    /** The next-round follow-up: NEXT appends the accepted candidate, and the game
        waits for the next word with a history that is still well formed. */
    method AdvanceRound()
      requires WellFormedHistory(previousWords) && CheckContinue(previousWords, nextWord) == Accepted
      requires !atTitle && error == "" && pending == None
      modifies this
      ensures Valid()
      ensures previousWords == old(previousWords) + [old(nextWord)]
      ensures currentPhase == Wait && nextWord == "" && error == "" && recording && !atTitle && pending == None
    {
      AcceptedExtendsHistory(previousWords, nextWord);
      MovePhase(Next);
    }

    /** The pending timer fires: after a success NEXT appends the candidate and the
        game waits for the next word; after a failure control returns to the title. */
    method TimerFired()
      requires Valid()
      modifies this
      ensures Valid()
      ensures pending == None
      ensures old(pending) == None ==>
        currentPhase == old(currentPhase) && previousWords == old(previousWords) &&
        recording == old(recording) && atTitle == old(atTitle)
      ensures old(pending) == Some(AdvanceTimer) ==>
        previousWords == old(previousWords) + [old(nextWord)] &&
        currentPhase == Wait && nextWord == "" && error == "" && recording && !atTitle
      ensures old(pending) == Some(TitleTimer) ==>
        previousWords == old(previousWords) && atTitle && !recording
    {
      match pending {
        case None =>
        case Some(AdvanceTimer) =>
          pending := None;
          AdvanceRound();
        case Some(TitleTimer) =>
          pending := None;
          BackTitle();
      }
    }

  }

  /** One accepted round from WAIT: WAIT, RECORD, CHECK, RESULT, then NEXT back to
      WAIT with one more word. */
  method AcceptedRoundScenario()
  {
    var s := new Session();
    assert s.currentPhase == Wait && s.previousWords == [Seed];
    s.OnInterimResult();
    assert s.currentPhase == Record;
    var apple := [Token(Known, Some("リンゴ"))];
    assert Candidate(apple) == "りんご";
    assert CheckContinue([Seed], "りんご") == Accepted;
    s.OnFinalResult(Tokens(apple));
    assert s.currentPhase == Result && s.pending == Some(AdvanceTimer);
    s.TimerFired();
    assert s.currentPhase == Wait && s.previousWords == [Seed, "りんご"] && s.recording;
  }

  /** Failed rounds: an empty and an unknown analysis are retried silently in WAIT;
      a word that does not chain ends in RESULT with its message, then the title. */
  method FailedRoundScenario()
  {
    var s := new Session();
    s.OnFinalResult(Tokens([]));
    assert s.currentPhase == Wait && s.recording && s.nextWord == "";
    s.OnFinalResult(Tokens([Token(Unknown, Some("ゴリラ"))]));
    assert s.currentPhase == Wait && s.recording && s.previousWords == [Seed];
    var gorilla := [Token(Known, Some("ゴリラ"))];
    assert Candidate(gorilla) == "ごりら";
    assert CheckContinue([Seed], "ごりら") == Rejected(NotChain);
    s.OnFinalResult(Tokens(gorilla));
    assert s.currentPhase == Result && s.error == Message(NotChain);
    s.TimerFired();
    assert s.atTitle && !s.recording && s.previousWords == [Seed];
  }
}
