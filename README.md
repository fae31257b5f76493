# Quiz session, question bank and attempt store

A Dafny model of the logic core of a client-side quiz application. It covers three parts:

- **The quiz session** of the `Quiz` component. Six state cells: `currentQuestion`, `incorrectAnswers`, `timeLeft`, `showResult`, `selectedAnswer`, `showFailPopup`. Five handlers change them: the per-second interval, `handleTimeout`, `handleAnswerSelect`, `goToNextQuestion` and `restartQuiz`.
- **The question bank**: a fixed list of ten questions. The first five are multiple choice; the last five take an integer answer.
- **The attempt store**: an IndexedDB object store, `quizAttempts`. Its records are keyed in-line on an auto-incremented `id`. Records are only added and read back in bulk.

The browser's timers become explicit events:

- `Tick`: one firing of the one-second interval.
- `HandleAnswerSelect`: the user answers.
- `Advance`: the one-second `setTimeout` that an answer schedules.
- `RestartQuiz`: the user restarts.

A seventh cell, `pendingAdvance`, records that the scheduled advance has not run yet.

The session is the class `QuizSession.Session`. Its methods update the cells in place. Each method's contract ties the new state to a pure transition function on the `SessionState` value, and the attempt store's new contents to `Persisted`.

`QuizProperties` works over whole event sequences. It proves:

- the invariant every reachable state keeps;
- how mistakes are counted;
- that `saveResult` runs exactly once, on entering the result screen;
- what the saved record contains.

Answers to integer questions are checked with ECMAScript's `parseInt`, called without a radix (section 19.2.5 of ECMA-262, 2023 edition). `IntParsing.ParseInt` models it: it removes leading whitespace and one sign, takes the "0x" prefix as hexadecimal, reads the longest digit prefix, and gives `None` (NaN) when there are no digits. `FormatInt` is its partner: it writes an integer in decimal, and a round-trip lemma links the two.

The store is `AttemptStore.Store`: a sequence of records plus the key generator's current number. Its key generator follows the "Key generators" section of the W3C Indexed Database API 3.0: the first key is 1, each key is one more than the last, and after 2^53 a save fails with a ConstraintError. A failed transaction changes nothing.

In a few places the component's intended design and its code differ. The model follows the code in two:

- `getAll` returns records in key order, which is also the order they were saved in.
- A failed save is dropped without a word. `goToNextQuestion` calls `saveResult()` without awaiting it or catching its rejection (src/components/quiz.tsx:96), while the design asks that a failed save reach the caller. In the model too, `Session.GoToNextQuestion`, `Session.HandleTimeout`, `Session.Tick` and `Session.Advance` discard the result of `SaveQuizAttempt`: after a failed write the result screen still shows, the store is unchanged, and nothing reports the failure.

The model does not follow the code in these places:

- A second answer during the one-second delay counts again in the code. `AnswerSelected` behaves like the code, but `Session.HandleAnswerSelect` and the event model exclude the case: they accept an answer only when no advance is pending.
- `restartQuiz` does not cancel a scheduled advance. `Restarted` behaves like the code and keeps the pending flag, but `Session.RestartQuiz` and the event model exclude a restart while an advance is pending.
- No timeout happens while an advance is pending. The clock still counts down, but it can wait at 0 until the advance runs. In the code the timeout fires at 0 regardless, which "Findings" shows.
- The record the session saves is the intended one, counting every mistake. The code builds it from a stale closure, which misses the mistake of the transition that saves, when that transition is one: a wrong answer to the last question, or a timeout on it. The record as the code writes it is modelled next to the corrected one, under "Findings".

## Model

| member | source | states |
|---|---|---|
| `IntParsing.TrimStart` | src/components/quiz.tsx:70 | removes exactly the longest prefix of ECMAScript whitespace and line terminators; the rest does not start with whitespace |
| `IntParsing.DigitPrefixLength` | src/components/quiz.tsx:70 | the length of the longest prefix of radix digits: every character before it is a digit and the one at it is not |
| `IntParsing.ParseIntOfFormatted` | src/components/quiz.tsx:70 | parseInt reads back any integer's decimal numeral, followed by any text that does not start with a digit; a "0x" after the numeral 0 is the one exception |
| `IntParsing.ParseIntFormatRoundTrip` | src/components/quiz.tsx:70 | `ParseInt(FormatInt(v)) == Some(v)` for every integer `v` |
| `IntParsing.ParseIntSkipsLeadingWhiteSpace` | src/components/quiz.tsx:70 | leading whitespace never changes what parseInt returns |
| `IntParsing.ParseIntMinus` | src/components/quiz.tsx:70 | a leading '-' negates the value the rest denotes, and leaves NaN as NaN |
| `IntParsing.ParseIntPlus` | src/components/quiz.tsx:70 | a leading '+' changes nothing |
| `IntParsing.ParseIntNaNIff` | src/components/quiz.tsx:70 | parseInt gives NaN exactly when no decimal digit follows the whitespace and the sign, or when "0x" is followed by no hexadecimal digit; otherwise the result has the sign written |
| `IntParsing.NumeralTolerance` | src/components/quiz.tsx:70 | a numeral is read back with whitespace in front, with a non-digit tail, or with '+' in front of a non-negative value |
| `IntParsing.NoLeadingDigitIsNaN` | src/components/quiz.tsx:70 | with no decimal digit after the whitespace and the sign, the result is NaN |
| `QuestionBank.BankShape` | src/utils/quiz.ts:1-82 | the bank holds ten questions; indices 0-4 are multiple choice and 5-9 integer |
| `QuestionBank.BankWellFormed` | src/utils/quiz.ts:5-55 | every multiple-choice question has exactly the option keys A, B, C and D, and its answer is one of them |
| `AttemptStore.AfterAdd` | src/utils/db.ts:37-40 | the add request: on success, the record with the generated key is appended and the generator moves one past that key; on failure, the store is unchanged, and the error is StorageError exactly when the write did not go through |
| `AttemptStore.ReadAll` | src/utils/db.ts:49-52 | the getAll request succeeds exactly when the read goes through, and then yields every stored record in key order |
| `AttemptStore.Store.constructor` | src/utils/db.ts:23-26 | a new object store is empty, and its key generator starts at 1 |
| `AttemptStore.Store.SaveQuizAttempt` | src/utils/db.ts:32-42 | the store's new contents are those `AfterAdd` gives; the promise resolves with no value exactly when the add request succeeds, and otherwise rejects with the request's error |
| `AttemptStore.Store.GetQuizAttempts` | src/utils/db.ts:44-54 | resolves with every stored record, or rejects; it changes nothing |
| `AttemptStore.Database.OnUpgradeNeeded` | src/utils/db.ts:20-28 | creates the object store, empty with the key generator at 1, only when it is missing; an existing store and its records are kept, so repeated opens change nothing |
| `AttemptStore.AddKeepsWellKeyed` | src/utils/db.ts:23-26 | after a save, keys are still present, strictly increasing and below the generator's current number |
| `AttemptStore.AddSucceedsIff` | src/utils/db.ts:37-40 | the add request succeeds exactly when the write goes through and a key is left; its result is the generator's current number, which `saveQuizAttempt` discards |
| `AttemptStore.AddAppendsOne` | src/utils/db.ts:37-39 | a successful save appends exactly one record: date, score, correctAnswers and totalQuestions as passed in, plus the new key; earlier records are untouched; a failed save leaves the store unchanged |
| `AttemptStore.AddAllKeepsHistory` | src/utils/db.ts:32-42 | over any sequence of saves, earlier records are never changed, keys stay distinct and increasing, and the store grows by one for each successful write |
| `AttemptStore.ReadAfterAdd` | src/utils/db.ts:47-51 | a read after a successful save returns the earlier records followed by the new one |
| `AttemptStore.TwoSavesReadBack` | src/utils/db.ts:32-54 | two saves into a fresh store read back as exactly two records, with keys 1 and 2 |
| `QuizSession.IsCorrect` | src/components/quiz.tsx:65-71 | a multiple-choice answer is right exactly when the option key is the answer key; an integer answer exactly when parseInt reads the typed text as the answer |
| `QuizSession.SelectedValue` | src/components/quiz.tsx:63 | `optionKey \|\| answer`: a non-empty option key wins; without one, the typed text |
| `QuizSession.SavedAttempt` | src/components/quiz.tsx:45-52 | the record `saveResult` builds: no key, the given date, 10 questions, correct plus incorrect equal to the total, and for ten questions the score is exactly the percentage correct |
| `QuizSession.Restarted` | src/components/quiz.tsx:100-107 | the initial state, with only the pending flag carried over, since restart cancels nothing; the session is in progress |
| `QuizSession.AnswerSelected` | src/components/quiz.tsx:62-87 | records `optionKey \|\| answer`; adds one mistake exactly for a wrong answer; fails the session exactly when that mistake reaches three; schedules the advance otherwise; no other cell changes |
| `QuizSession.NextQuestion` | src/components/quiz.tsx:89-98 | saves exactly at the last question, where it only shows the result screen; otherwise it moves on by one with a full clock and no selection, and nothing else changes |
| `QuizSession.TimedOut` | src/components/quiz.tsx:35-42 | one more mistake; at three, the fail screen with no save; otherwise exactly `NextQuestion` |
| `QuizSession.Ticked` | src/components/quiz.tsx:18-33 | does nothing once the session has ended; while in progress, takes one second off, or at zero does exactly what `TimedOut` does |
| `QuizSession.Advanced` | src/components/quiz.tsx:81-86 | clears the pending flag; keeps the mistake count and the fail screen; saves exactly at the last question, and otherwise moves on by one |
| `QuizSession.Persisted` | src/components/quiz.tsx:44-54 | at most one record is added, and earlier ones are kept; one is added exactly when the transition saves and the write succeeds; it counts every mistake of the new state, and its score is the one the result screen shows |
| `QuizSession.DisplayedScore` | src/components/quiz.tsx:319-323 | the final score on the result screen: ten points for every question not missed |
| `QuizSession.Score` | src/components/quiz.tsx:47-49 | `Math.round(correct / total * 100)`: the percentage rounded to the nearest integer, halves up; between 0 and 100 when 0 <= correct <= total |
| `QuizSession.Session.constructor` | src/components/quiz.tsx:7-12 | the initial state: question 0, no mistakes, 30 seconds, no selection, neither screen, nothing pending |
| `QuizSession.Session.RestartQuiz` | src/components/quiz.tsx:100-107 | the new state is `Restarted` of the old one, and the invariant holds |
| `QuizSession.Session.HandleAnswerSelect` | src/components/quiz.tsx:62-87 | the new state is `AnswerSelected` of the old one and the answer; the invariant holds |
| `QuizSession.Session.GoToNextQuestion` | src/components/quiz.tsx:89-98 | the new state is `NextQuestion` of the old one; after the last question the store gains the session's attempt, provided the write goes through and a key is left, and is otherwise unchanged |
| `QuizSession.Session.HandleTimeout` | src/components/quiz.tsx:35-42 | the new state and store are those of `TimedOut`: one mistake, then the fail screen or an immediate advance |
| `QuizSession.Session.Tick` | src/components/quiz.tsx:18-33 | the new state and store are those of `Ticked` |
| `QuizSession.Session.Advance` | src/components/quiz.tsx:81-86 | clears the pending flag, then does what `goToNextQuestion` does |
| `QuizSession.ThreeMistakesSaveNothing` | src/components/quiz.tsx:73-78 | three clicks on a wrong option, made through the class's methods, end on the fail screen, and the store stays empty |
| `QuizProperties.StepKeepsInv` | src/components/quiz.tsx:18-107 | every allowed transition keeps the invariant: the index is in range; the fail screen shows exactly at three mistakes; the two screens never show together; the result screen shows only at the last question; nothing is pending in either screen |
| `QuizProperties.RestartResets` | src/components/quiz.tsx:100-107 | from any state: question 0, no mistakes, 30 seconds, no selection, in progress; with nothing pending, exactly the initial state |
| `QuizProperties.AnswerCounting` | src/components/quiz.tsx:62-87 | a right answer keeps the mistake count and schedules the advance; a wrong one adds exactly one, fails the quiz at three, and otherwise schedules the advance |
| `QuizProperties.ThirdMistakeFails` | src/components/quiz.tsx:35-79 | whichever transition makes the third mistake fails the session at once, with no advance scheduled and nothing saved |
| `QuizProperties.StepCountsMistakes` | src/components/quiz.tsx:35-79 | every transition except restart adds one to the count for a wrong answer or a timeout, and nothing otherwise |
| `QuizProperties.StepIndexMonotone` | src/components/quiz.tsx:89-98 | without a restart, the question index stays the same or grows by one |
| `QuizProperties.TimeoutIsOneWrongAnswer` | src/components/quiz.tsx:35-42 | a timeout at zero matches one wrong answer followed by its advance, with no delay: same count, question, clock, phase and save |
| `QuizProperties.StepSavesIffCompletes` | src/components/quiz.tsx:89-98 | `saveResult` runs exactly on the transition that enters the result screen |
| `QuizProperties.CompletedScore` | src/components/quiz.tsx:44-54 | a completed session has at most two mistakes; its score is 100 - 10k, so 80, 90 or 100 |
| `QuizProperties.RunKeepsInv` | src/components/quiz.tsx:7-107 | every state reached by allowed events satisfies the invariant |
| `QuizProperties.RunCountsMistakes` | src/components/quiz.tsx:35-79 | without a restart, the count grows by exactly the number of wrong answers and timeouts |
| `QuizProperties.RunIndexMonotone` | src/components/quiz.tsx:89-107 | without a restart, the question index never decreases |
| `QuizProperties.EndedRunIsIdle` | src/components/quiz.tsx:27-30 | once the session has ended, only a restart changes it: no event moves it or saves |
| `QuizProperties.RunSavesOnce` | src/components/quiz.tsx:89-98 | between restarts, at most one attempt is saved, and exactly one if the run enters the result screen |
| `QuizProperties.CompletedRunRecord` | src/components/quiz.tsx:44-54 | a play from the start to the result screen saves one attempt; correctAnswers = 10 minus the mistakes made (at most 2); totalQuestions = 10; score = the one the result screen shows |
| `QuizProperties.StoreAfterRun` | src/components/quiz.tsx:44-54 | along any run without restarts, the store is unchanged when nothing is saved, and otherwise gains exactly the add of the record with the run's final mistake count |
| `QuizProperties.CompletedRunStore` | src/components/quiz.tsx:44-54 | after a session played from the start to the result screen, the store holds its old records followed by one attempt under the next key, counting every mistake (at most two); a failed write or an exhausted key generator leaves it unchanged |
| `QuizProperties.ThreeWrongAnswersFail` | src/components/quiz.tsx:62-79 | three clicks on a wrong option, on the first three questions, fail the attempt on the third, with no save |
| `QuizProperties.PerfectSessionScores100` | src/components/quiz.tsx:44-54 | every question answered correctly, from any fresh question on, which from question 0 is the whole session from the initial state: the result screen and exactly one saved attempt, with 10 correct answers out of 10 and a score of 100 |
| `QuizProperties.RightAnswerExists` | src/components/quiz.tsx:67-71 | the answer key is judged right for a multiple-choice question, and the answer's numeral for an integer one |
| `QuizProperties.EveryQuestionAnswerable` | src/utils/quiz.ts:1-82 | every question of the bank has an input that is judged right |
| `QuizProperties.ExactlyOneOptionRight` | src/components/quiz.tsx:67-68 | among a multiple-choice question's options, only the answer key is judged right |
| `QuizProperties.IntegerAnswerTolerance` | src/components/quiz.tsx:69-70 | the answer's numeral is still right with leading whitespace, with trailing non-digits, or with '+' in front of a non-negative answer |
| `QuizProperties.NonNumericIsWrong` | src/components/quiz.tsx:69-70 | typed text with no digit after the whitespace and the sign is wrong, not an error |
| `QuizProperties.PersistedAsWritten` | src/components/quiz.tsx:44-54 | the store as the code writes it: on a saving transition, one record whose correct count comes from the closure's state `before` |
| `QuizProperties.StaleAnswerSave` | src/components/quiz.tsx:44-54 | for every last-question answer followed by its advance, the code's record has one more correct answer and 10 more points than the corrected record for a wrong answer, and the same for a right one |
| `QuizProperties.StaleTimeoutSave` | src/components/quiz.tsx:35-54 | for every last-question timeout that does not fail the session, the code's record has one more correct answer and 10 more points than the corrected one |
| `QuizProperties.StaleSaveMissesLastMistake` | src/components/quiz.tsx:44-54 | one earlier mistake and a wrong last answer: the screen shows 8 correct and 80%, but the code saves 9 correct and 90% |
| `QuizProperties.StaleAdvance` | src/components/quiz.tsx:81-98 | the advance callback as the code runs it: the branch is decided by the render the answer was given in; the index moves one past its value when the callback fires |
| `QuizProperties.StaleAdvanceAgrees` | src/components/quiz.tsx:81-98 | when nothing moved the index between the answer and its callback, the callback as written is `Advanced` |
| `QuizProperties.AnswerAtZeroOverrunsBank` | src/components/quiz.tsx:18-42 | a right answer to question 9 while its clock shows 0: the timeout still counts a mistake and moves to question 10, and the advance then puts the index past the bank |

## Left out

- Rendering, animation and styling (the JSX of `src/components/quiz.tsx` from line 109 on), the landing page (`src/components/landing.tsx`) and routing (`src/App.tsx`). They are presentation only.
- The progress bars (`timeLeft / 30` and the score bar width) are floating-point display values. `Score` computes the rounded percentage in integers. It matches `Math.round` on the floating-point quotient exactly for ten questions, where every possible percentage is a multiple of 10.
- Real timers (`setInterval`, `setTimeout`, `clearInterval`) are replaced by the events `Tick` and `Advance` and the `pendingAdvance` flag. Concurrency and the real one-second timing are not modelled.
- Clearing the number field through `inputRef` is a DOM side effect, left out.
- Loading and showing the history (`loadPreviousAttempts`, `previousAttempts`, `showAttempts`) is left out. Only the store's read is modelled, as `GetQuizAttempts`.
- `AttemptStore.Store.SaveQuizAttempt` has a single verdict `writeOk` for the whole write. The code resolves as soon as the add request succeeds (db.ts:39), before the transaction commits. A later commit-time abort, such as a quota error, leaves the promise resolved and the record missing. The model cannot express that case.
- IndexedDB plumbing is left out: `indexedDB.open`, versions, transactions and the Promise wrapping. Whether the browser completes a write or a read is the parameter `writeOk` or `readOk`. The completion time is an opaque `Date`, taken as a parameter.
- `IntParsing.ParseInt` returns the mathematical integer, not a floating-point Number. Rounding to double, and the approximation allowed past 20 significant digits, are not modelled. Neither can change the comparison with the bank's answers, which are all far below 2^53. `-0` and `0` are the same integer, as `===` treats them.
- `IntParsing.ParseInt` carries no `ensures` of its own. What it returns is stated by `ParseIntNaNIff` and the lemmas before it, which keeps the cost of checking its callers low.
- `QuizSession.Session.HandleAnswerSelect` requires that no advance be pending. The code has no such guard: a second answer during the one-second delay counts again and schedules a second advance.
- `QuizSession.Session.Tick` requires that no timeout happen while an advance is pending. The clock still counts down during the delay, but it can wait at 0 until the advance runs. In the code, an answer given while the clock shows 0 always meets the timeout before its advance. Answering changes none of the cells the interval depends on, so the interval keeps firing. The timeout then:
  - counts a mistake even for a right answer;
  - runs `goToNextQuestion` a second time, so from question 9 the index passes the bank, and from question 10 `saveResult` runs twice;
  - tests the stale `incorrectAnswers + 1 >= 3`, so a third mistake can pass without the fail screen, or fail the session while the pending advance still saves.

  `RunKeepsInv` and `RunSavesOnce` depend on this exclusion. The first symptom is modelled as written in `AnswerAtZeroOverrunsBank`; see "Findings". A timeout on the last question also saves the corrected record from `Persisted`, as `HandleTimeout` does below.
- `QuizSession.Persisted` is the corrected record, not the one `saveResult` writes: it counts the mistake of the transition that saves, where the code's stale closure does not. `QuizProperties.PersistedAsWritten` is the record as written.
- `QuizSession.Session.HandleTimeout` saves, on the last question, the corrected record from `Persisted`, which counts the timeout's own mistake. The code's `saveResult` runs in the interval's closure of an earlier render and saves the count from before it. `PersistedAsWritten` and `StaleTimeoutSave` model and compare the code's record.
- `QuizSession.Session.Advance` saves, after a wrong last answer, the corrected record from `Persisted`, which counts that mistake. The code's `setTimeout` closure saves the count from before it. `PersistedAsWritten` and `StaleAnswerSave` model and compare the code's record.
- `QuizSession.Session.RestartQuiz` requires that no advance be pending. `restartQuiz` does not cancel the scheduled timeout. The restart buttons appear only on the fail and result screens, where the invariant shows nothing is pending.
- Two reads use stale closures: `incorrectAnswers + 1 >= 3` in `handleTimeout` and `handleAnswerSelect`. In a sequential model they equal incrementing first and then testing, and that is how they are modelled.
- Multiple-choice options are a `map`, so the order in which the buttons are rendered is not captured.
- `AttemptStore.Store.SaveQuizAttempt` requires a record without an `id`. Saving with an explicit key, and how that moves the key generator, is not modelled: the only caller never supplies an `id`.

## Findings

| source | as written | input that shows it | evidently intended | confidence | as-written member | corrected member |
|---|---|---|---|---|---|---|
| src/components/quiz.tsx:44-54 | `saveResult` runs inside the closure of the render where the last answer was given, or where the last timeout fired, so it reads `incorrectAnswers` from before that transition's own increment | one earlier mistake, then a wrong answer to the last question: the result screen shows 8 correct and 80%, but the saved attempt says 9 correct and 90% | the saved attempt counts every mistake, matching the result screen | high; not executed | `QuizProperties.PersistedAsWritten` (shown for all inputs by `QuizProperties.StaleAnswerSave` and `QuizProperties.StaleTimeoutSave`, and on one input by `QuizProperties.StaleSaveMissesLastMistake`) | `QuizSession.Persisted` (proved by `QuizProperties.CompletedRunRecord`) |
| src/components/quiz.tsx:18-42 | the interval keeps firing while an answer's advance is pending. An answer given while the clock shows 0 is then timed out as well, and the stale advance that follows moves the index once more | question 9 (index 8) answered rightly with 3 while its clock shows 0: one mistake is counted, the timeout moves to question 10, and the advance then moves the index to 10, one past the bank, which the render then indexes | an answered question is not also timed out, and the index stays within the bank | medium (timing-dependent); not executed | `QuizProperties.StaleAdvance` with `QuizSession.Ticked` (shown by `QuizProperties.AnswerAtZeroOverrunsBank`) | `QuizSession.Session.Tick` under `QuizSession.TickAllowed` (proved by `QuizProperties.RunKeepsInv`) |
