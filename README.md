# Shiritori turn logic in Dafny

A model of the turn logic of a spoken Japanese word-chain game (shiritori). A player
says a word. The browser transcribes it, a morphological analyser gives its katakana
reading, and the game converts the reading to hiragana. It then decides whether the
word continues the chain of words used so far, ends the game (a word ending in ん),
repeats an earlier word, or was not recognised and must be said again. A session
moves through six phases: RESET, WAIT, RECORD, CHECK, RESULT and NEXT.

Modules:

- `AppError` (`app_error.dfy`): the four error codes with their numeric values, and a
  `Result` type.
- `Kana` (`kana.dfy`): analyser tokens and reading extraction. Also the
  katakana-to-hiragana shift by the fixed distance 0x60 between the Katakana and
  Hiragana blocks of the Unicode Standard.
- `Chain` (`chain.dfy`): `checkContinue` as the source computes it on JavaScript
  string slices (`slice(-1)`, `slice(0, 1)`, `slice(0, -1)`), and the rules of the game
  stated on characters (`HandedOn`, `Continues`, `LegalMove`). The lemma
  `CheckContinueMeetsRules` ties the two together: each verdict holds exactly when its rule says so, in the fixed
  order FailedRecognition, EndGame, NotChain, AlreadyExists. `WellFormedHistory` states
  what a game history is: the seed word しりとり followed by legal moves only.
- `Game` (`game.dfy`): the React component as a class `Session`. Its fields are the
  component state (`currentPhase`, `nextWord`, `previousWords`, `error`), the
  recogniser's `recording` flag, the pending timer and a flag for the hand-back to the
  title screen. There is one method per phase entry (`MovePhase`) and one per callback:
  interim result, final result, end of recognition, timer fired. `Valid()` is the
  session invariant every callback keeps. It says the history stays well formed (so
  non-empty and duplicate-free), RESET, CHECK and NEXT are never seen between events,
  WAIT always listens, a timer is pending exactly in RESULT, and in RESULT the message
  and timer agree with the verdict. Every callback leaves `previousWords` unchanged or
  appends exactly the accepted candidate.

Behaviour of the code that the model keeps as written:

- When reading extraction fails, the handler moves to WAIT and sets `nextWord` to
  `undefined` (here ""). `checkContinue` then rejects that with FailedRecognition, and
  the handler moves to WAIT a second time. Starting the recogniser again is a no-op.

Two defects of the source, kept as written:

- The result handler has no phase check of its own (src/containers/Game.js:183-204).
  A result that arrives after the recogniser was stopped would still be acted on. The
  model takes results to arrive only while the recogniser is recording, which is WAIT
  or RECORD.
- An end of recognition in RECORD stops the recogniser and does not restart it
  (src/containers/Game.js:241-248). The game is then stuck in RECORD for good: the
  recogniser is stopped, so no result and no further end can arrive, and no timer is
  pending. `OnRecognitionEnd`'s contract states this outcome.

## Model

| member | source | states |
|---|---|---|
| AppError.ErrorCode.Code | src/error.js:2-9 | codes lie in 100..299, and only the recognition error is below 200 |
| AppError.CodeInjective | src/error.js:2-9 | distinct errors have distinct numeric codes |
| Kana.ToHiragana | src/containers/Game.js:108-111 | the global replacement keeps the length and converts every character on its own, in place, by the one-character conversion |
| Kana.ToHiraganaPointwise | src/containers/Game.js:107-111 | the conversion keeps the length, moves each character in U+30A1..U+30F6 down by 0x60 and leaves every other character, ー included, unchanged |
| Kana.ToHiraganaLeavesNoKatakana | src/containers/Game.js:107-111 | no character of U+30A1..U+30F6 survives the conversion |
| Kana.ToHiraganaIdempotent | src/containers/Game.js:107-111 | converting twice equals converting once |
| Kana.ToHiraganaRoundTrip | src/containers/Game.js:107-111 | on text with no hiragana of U+3041..U+3096, shifting back up by 0x60 recovers the original, so the conversion loses nothing |
| Kana.TextToHiragana | src/containers/Game.js:97-112 | a reading is produced exactly when there is a first token, it is not UNKNOWN and has a non-empty reading; every failure is FailedRecognition; the result is the first token's reading converted by `ToHiragana`, so it is non-empty, as long as the reading and free of converted katakana |
| Kana.TextToHiraganaFirstTokenOnly | src/containers/Game.js:98-106 | tokens after the first never change the outcome |
| Chain.Enlarge | src/containers/Game.js:131-164 | a character changes exactly when it is one of ぁぃぅぇぉっゃゅょゎ; it then becomes the full-size kana one code point above; no small kana comes out |
| Chain.Tail | src/containers/Game.js:126-130 | the tail is the last character, or the one before it when the last is ー; exactly one mark is skipped (a word ending ーー gives ー, the word ー gives nothing) |
| Chain.CanonicalTail | src/containers/Game.js:131-164 | a one-character tail becomes its entry in the small-kana table: a small kana turns into the full-size kana one code point above it, any other character is kept, and the result is never small; any other tail passes unchanged |
| Chain.TailIsHandedOn | src/containers/Game.js:126-164 | the slice-based canonical tail equals the kana the previous word hands on under the character-level rule |
| Chain.CheckContinue | src/containers/Game.js:118-181 | FailedRecognition exactly when the candidate is empty (JavaScript `undefined` included); an accepted candidate is not among the used words |
| Chain.CheckContinueMeetsRules | src/containers/Game.js:166-179 | EndGame iff the candidate ends in ん, whether or not it chains or repeats; NotChain iff it does not end in ん and does not start with the kana the last word hands on; AlreadyExists iff it chains but was used; accepted iff it is a legal move |
| Chain.SeedIsWellFormed | src/containers/Game.js:16-21 | the initial history, the seed word alone, is well formed |
| Chain.WellFormedHistoryStartsWithSeed | src/containers/Game.js:16-21 | a well-formed history is non-empty and starts with the seed word |
| Chain.WellFormedHistoryDistinct | src/containers/Game.js:174-177 | a history built from legal moves has no duplicate word |
| Chain.AcceptedExtendsHistory | src/containers/Game.js:61-71 | appending an accepted candidate to a well-formed history keeps it well formed |
| Chain.AcceptedExamples | src/containers/Game.js:126-179 | りんご after しりとり is accepted; からす after かー is accepted, the mark being looked through |
| Chain.SmallKanaExample | src/containers/Game.js:148-158 | やま after ちゃ is accepted: the small ゃ hands on や |
| Chain.RejectedExamples | src/containers/Game.js:166-177 | ごはん is EndGame, ごりら after しりとり is NotChain, a repeated word is AlreadyExists |
| Game.Message | src/containers/Game.js:211-228 | every round-ending error has a non-empty message |
| Game.MessagesDistinct | src/containers/Game.js:211-228 | the three messages are pairwise different, one per error |
| Game.Candidate | src/containers/Game.js:191-204 | the stored candidate is empty exactly when reading extraction failed, otherwise it is the reading |
| Game.Session.HistoryInvariant | src/containers/Game.js:16-21 | between events the history starts with the seed word and has no duplicates |
| Game.Session.constructor | src/containers/Game.js:25-33 | mounting ends in WAIT, recording, with history [しりとり], no candidate, no error, no timer |
| Game.Session.StartRecord | src/speechRecognitionService.js:37-43 | afterwards the recogniser is recording; starting while recording changes nothing |
| Game.Session.StopRecord | src/containers/Game.js:259-261 | afterwards the recogniser is not recording |
| Game.Session.BackTitle | src/containers/Game.js:40-42 | control is back at the title and the unmounted game no longer records |
| Game.Session.MovePhase | src/containers/Game.js:44-88 | the new state after each phase entry: RESET restores the initial state and NEXT appends the candidate, both ending in WAIT; WAIT records, CHECK stops; RESULT schedules the next round when the error is empty and the return to the title otherwise |
| Game.Session.OnInterimResult | src/containers/Game.js:183-187 | a non-final result moves to RECORD, keeps the invariant and changes nothing else |
| Game.Session.OnFinalResult | src/containers/Game.js:189-204 | keeps the invariant and the history; an analyser failure returns to the title; otherwise the session ends as `Judged` says for the candidate the tokens give: FailedRecognition back in WAIT recording with no candidate; acceptance in RESULT with no error and the next-round timer; EndGame, NotChain and AlreadyExists in RESULT with their message and the title timer |
| Game.Session.JudgeCandidate | src/containers/Game.js:206-238 | keeps the history; the state after `checkContinue` and the reaction to its verdict is the one `Judged` describes for the stored candidate |
| Game.Session.OnRecognitionEnd | src/containers/Game.js:241-248 | afterwards the recogniser records exactly when the phase is WAIT; nothing else changes |
| Game.Session.TimerFired | src/containers/Game.js:72-81 | the next-round timer appends the candidate (history grows by exactly one, old prefix kept) and ends in WAIT recording with no candidate; the title timer returns to the title; the invariant is kept |
| Game.Session.AdvanceRound | src/containers/Game.js:61-76 | entering NEXT with an accepted candidate appends it, keeps the history well formed and ends in WAIT, recording, with no candidate |

## Left out

- Rendering and the JSX user interface (src/containers/Game.js:263-330), and the scene
  switching in src/containers/Main.js and src/containers/Title.js: presentation only.
- The kuromoji tokenizer and its dictionary loading (src/containers/Game.js:92-97). A
  final result carries the analyser's answer instead: a token sequence, or a failure to
  build the tokenizer. The transcript text itself is not modelled.
- The browser speech recogniser (src/speechRecognitionService.js). Only its `recording`
  flag and its "start is a no-op while recording" rule are modelled.
- Real time. `setTimeout` becomes the `pending` field and a timer-fired event. The
  delays (1500 ms and 3000 ms) are not modelled; only which follow-up is pending is.
- React's deferred `setState`. The model applies every state update at once. The
  source relies on that reading of its state. `movePhase` spreads `this.state` right
  after a `setState` (src/containers/Game.js:45-48 and 65-70). RESULT reads
  `this.state.error` (src/containers/Game.js:73) right after the handler's
  `setState({error})` (src/containers/Game.js:212-225). Batched or deferred updates
  are not modelled.
- Promises and async interleaving. Each callback runs to completion before the next.
  An end of recognition or a result arriving while a final result is still being
  analysed is not modelled.
- Game.Session.OnInterimResult: requires the recogniser to be recording. A result
  delivered after the recogniser was stopped would let the code schedule a second
  timer, and is not modelled.
- Game.Session.OnFinalResult: requires the recogniser to be recording, for the same
  reason. After an analyser failure it stops at the return to the title. The source
  handler goes on, but only against the unmounted component: React drops its state
  updates, and the start of the recogniser returns because the recogniser was released.
- Game.Session.OnRecognitionEnd: after the return to the title the source would throw
  on the released recogniser. The model changes nothing there.
- Game.Session.MovePhase: requires that the game is still mounted, and that no timer is
  pending on entry to RESULT. Both hold wherever the modelled events enter a phase, and
  the second is what keeps at most one timer pending. The source also enters WAIT on
  the unmounted game (src/containers/Game.js:209) after an analyser failure has returned
  to the title (src/containers/Game.js:197). The model stops at the title there, as the
  OnFinalResult line says.
- Chain.CheckContinue: requires a non-empty history when the candidate is non-empty.
  In the source the TypeError is thrown inside the Promise executor
  (src/containers/Game.js:119-127), so `checkContinue` rejects. The handler's `default`
  branch then logs the error and returns to the title (src/containers/Game.js:229-232).
  The session invariant rules that case out.
- Strings are sequences of Unicode code points, not UTF-16 code units. All kana, the
  prolonged sound mark and the converted range are single code units, so the two agree
  on them. They differ only for characters outside the Basic Multilingual Plane.
- `console.warn`, `console.error` and `console.log`, and the `default` branch of the
  phase switch, which no phase reaches.
