# Solo quiz engine

This project models the engine of the solo trivia game. A game draws
questions from a question bank, either for one category or for `Mix`. It
shows one question at a time with up to three shuffled options and a
15-second countdown. Points come from correct answers; in survival mode
wrong answers cost strikes. The game ends after the last question of a
fixed game, or when a survival game runs out of strikes. At the end the
game stores a results record and, when it was beaten, the high score.

The repository has two versions of the solo screen, and both are modelled:

- `src/app/quiz/QuizComponent.tsx` is the newer one, with a record of
  asked question ids and a refetch in survival mode. It is modelled in
  `quiz_engine.dfy`.
- `src/app/quiz/page.tsx` is the older one. It shuffles one fetched pool,
  has no refetch, and uses its own survival end test. It is modelled in
  `legacy_quiz.dfy`.

The screens' state lives in React hooks. Each screen is modelled as a
class whose fields are those hooks. Each handler is a method that changes
only the fields it names in `modifies`. The shared rules are pure
functions:

- `scoring.dfy`: the answer and end-of-game rules and the results record.
- `selection.dfy`: the draw of questions and the building of option lists.
- `shuffle.dfy`: `shuffleArray`.
- `quiz_types.dfy`: the records of `src/lib/definitions.ts`.

Time and randomness become parameters:

- **Shuffles.** `shuffleArray` sorts with a random comparator, so it
  returns some rearrangement of its input. `ShuffleArray` takes that
  rearrangement as a parameter: `order`, a list of positions. Every
  argument gives a permutation, and every permutation can be chosen.
- **Delays.** An accepted answer schedules a step two seconds later. Here
  `HandleAnswer` returns a `Scheduled` value saying which step that is.
  The caller then runs `Advance` or `EndGame` as the next step.
- **Countdown.** The one-second timer is the `Tick` method.
- **Question bank.** The records a category query returns are a parameter,
  the `pool`. The newer screen draws ids from it and then looks the drawn
  ids up. `Initialize` and `CompleteRefetch` take the records that lookup
  returns, and require them to be the drawn records in some order.
- **Storage.** Writing the results and the high score to browser storage
  becomes the fields `results` and `savedHighScore`. Reading the stored
  high score becomes the constructor's `storedHighScore` parameter.

## Model

| member | source | states |
|---|---|---|
| Shuffle.ShuffleArray | src/app/quiz/QuizComponent.tsx:17-19 | the result has the input's length and the same multiset of elements, and keeps the elements distinct when they were distinct |
| Shuffle.PermuteKeepsMultiset | src/app/quiz/QuizComponent.tsx:17-19 | rearranging by any order of positions keeps every element with its multiplicity (a proof by induction on the length) |
| Shuffle.PermuteKeepsDistinct | src/app/quiz/QuizComponent.tsx:17-19 | rearranging a sequence without repetitions gives one without repetitions |
| Shuffle.EveryOrderIsReachable | src/app/quiz/page.tsx:16-18 | every permutation of the input is a possible result of the shuffle |
| Scoring.IsCorrect | src/app/quiz/QuizComponent.tsx:141 | a blank answer is never correct; a non-blank answer is correct exactly when it equals the correct answer |
| Scoring.RecordedAnswer | src/app/quiz/QuizComponent.tsx:139 | a blank (timed-out) answer is recorded as missing, any other answer as itself |
| Scoring.AfterAnswer | src/app/quiz/QuizComponent.tsx:143-164 | a correct answer adds 100 points, 10 per second left and 20 per streak step, raises the streak by one and the best streak to at least it. A wrong answer resets the streak and, in survival only, loses a strike. The score never falls, and the counters' invariant is kept |
| Scoring.ScheduleAfter | src/app/quiz/QuizComponent.tsx:156-166 | an answer always schedules a step; it schedules the end exactly for a wrong survival answer that leaves the strikes at or below zero, and the advance step otherwise |
| Scoring.AdvanceEnds | src/app/quiz/QuizComponent.tsx:116-118 | the advance step ends only a fixed game, and it ends one exactly after its last question |
| Scoring.EndsAfterAnswer | src/app/quiz/QuizComponent.tsx:116-166 | across an answer and the step it schedules, a survival game ends exactly when a wrong answer leaves `strikes - 1 <= 0`, a fixed game exactly after its last question, and a duel never |
| Scoring.HighScoreToStore | src/app/quiz/QuizComponent.tsx:61-64 | a high score is stored exactly when the final score beats the one the game started with, and what is stored is the final score |
| Scoring.ReplayKeepsInvariant | src/app/quiz/QuizComponent.tsx:143-164 | over any sequence of answers given with time left, the score never falls, the best streak stays at or above the streak, and strikes drop by one per wrong answer in survival and never otherwise |
| Scoring.SurvivalStrikesRunOut | src/app/quiz/QuizComponent.tsx:25 | starting from 3 strikes, a survival game's strikes reach zero exactly when at least 3 answers were wrong |
| Scoring.CorrectCount | src/app/quiz/QuizComponent.tsx:65 | the number of answers equal to the correct answer at their position is at most the number of answers; its value is pinned by `CorrectCountIsMatchingPositions` |
| Scoring.CorrectCountIsMatchingPositions | src/app/quiz/QuizComponent.tsx:65 | the correct count equals the number of positions whose recorded answer equals the correct answer of the question at that position |
| Scoring.BuildResults | src/app/quiz/QuizComponent.tsx:65-77 | the results count as correct the positions whose answer matches, count the rest as wrong, total the answers given, and keep the questions up to that many; score, answers, best streak, mode and category are those given |
| Selection.Available | src/app/quiz/QuizComponent.tsx:96 | the available records are exactly the pool records whose id is not excluded: every kept record is in the pool and not excluded, every such pool record is kept, and distinct ids stay distinct |
| Selection.AvailableIsEmpty | src/app/quiz/QuizComponent.tsx:96-101 | nothing is available exactly when every pool record's id is excluded |
| Selection.QuestionLimit | src/app/quiz/QuizComponent.tsx:103 | the draw size is 10 in a fixed game and 30 otherwise |
| Selection.ShuffleKeepsDistinctIds | src/app/quiz/QuizComponent.tsx:106 | shuffling records keeps their ids distinct |
| Selection.SelectQuestions | src/app/quiz/QuizComponent.tsx:93-113 | every drawn record is in the pool with an id not excluded; the draw is empty exactly when every pool id is excluded; distinct ids in the pool give distinct ids in the draw |
| Selection.SelectionSize | src/app/quiz/QuizComponent.tsx:103-106 | the draw holds the smaller of the draw size and the number of available records |
| Selection.SelectionIsSubMultiset | src/app/quiz/QuizComponent.tsx:106 | the draw takes each available record at most as often as it is available |
| Selection.LookupOfDraw | src/app/quiz/QuizComponent.tsx:103-113 | when the lookup by id returns the drawn records in any order, every record it returns is a pool record whose id is not excluded, at most the draw size are returned (10 in a fixed game, 30 otherwise), and none are returned exactly when every pool id is excluded |
| Selection.LegacySelect | src/app/quiz/page.tsx:155-159 | every selected record is from the pool; a fixed game keeps the smaller of 10 and the pool size, any other mode the whole pool; distinct ids stay distinct |
| Selection.LegacySelectionIsSubMultiset | src/app/quiz/page.tsx:155-159 | the older selection takes each record at most as often as the pool holds it, and outside a fixed game it keeps exactly the pool's multiset |
| Selection.KeepNonEmpty | src/app/quiz/QuizComponent.tsx:184 | the filter drops every blank string and keeps every other one with its multiplicity |
| Selection.BuildOptions | src/app/quiz/QuizComponent.tsx:184 | the options are a rearrangement of the non-blank values among the correct and the two wrong answers |
| Selection.OptionsAreTheAnswers | src/app/quiz/QuizComponent.tsx:184 | there are at most three options, none blank, each one of the three answers, and the correct answer is among them when it is not blank |
| Selection.FormatQuestion | src/app/quiz/QuizComponent.tsx:181-187 | the question keeps the record's id, text, correct answer and category; its options are the shuffled non-blank answers and include the correct one when it is not blank |
| Selection.FormatAll | src/app/quiz/QuizComponent.tsx:221-227 | one question per record, in order, each keeping its record's id, text, correct answer and category, with the record's non-blank answers as options and the correct answer among them when it is not blank |
| Selection.LegacyFormatQuestion | src/app/quiz/page.tsx:163-167 | the older question keeps the text and correct answer; its options are the shuffled non-blank answers and include the correct one when it is not blank |
| Selection.LegacyFormatAll | src/app/quiz/page.tsx:162-168 | one question per record, in order, each keeping its record's text and correct answer, with the record's non-blank answers as options and the correct answer among them when it is not blank |
| Selection.RawIds | src/app/quiz/QuizComponent.tsx:189 | every record's id is in the set of batch ids |
| Selection.RawIdsAreTheRecordIds | src/app/quiz/QuizComponent.tsx:229 | an id is in the set of batch ids exactly when some record of the batch carries it |
| Selection.FormattedIds | src/app/quiz/QuizComponent.tsx:181-189 | each formatted question carries its record's id, which is among the batch ids |
| QuizEngine.AppendKeepsAskedIds | src/app/quiz/QuizComponent.tsx:228-229 | appending questions never asked, and adding their ids, leaves the held questions in front, every question's id asked, and the new ids apart from the old |
| QuizEngine.ResultsAsWritten | src/app/quiz/QuizComponent.tsx:59-61 | as written, the results an answer's end step stores count only the answers from before it, with the score and best streak from before it |
| QuizEngine.ResultsAfterAnswer | src/app/quiz/QuizComponent.tsx:59-77 | read after the answer, the results count the answers including it, with the score and best streak `AfterAnswer` gives |
| QuizEngine.FinalAnswerLeftOutAsWritten | src/app/quiz/QuizComponent.tsx:59-61 | as written, the stored results count one answer fewer than were given, lack the final answer's points when that answer was correct, and lack the best streak it set when it was a new best |
| QuizEngine.FinalAnswerLeftOutExample | src/app/quiz/QuizComponent.tsx:160 | on a one-question fixed game answered correctly with 15 seconds left, the results as written count 0 answers and 0 points, and read after the answer 1 correct answer and 270 points |
| QuizEngine.QuizSession.constructor | src/app/quiz/QuizComponent.tsx:204-207 | a fresh session is loading, with no questions, 3 strikes, zero counters, a full timer and the stored high score (0 when none) |
| QuizEngine.QuizSession.LoadBatch | src/app/quiz/QuizComponent.tsx:180-198 | a non-empty batch becomes the formatted questions, with their ids as the asked ids; an empty batch changes neither; loading ends either way |
| QuizEngine.QuizSession.Initialize | src/app/quiz/QuizComponent.tsx:169-199 | the records the lookup returns for a draw with nothing excluded become the formatted questions, with their ids as the asked ids: between 1 and 10 in a fixed game, between 1 and 30 otherwise, whenever the category has records; an empty category changes neither; loading ends either way |
| QuizEngine.QuizSession.HandleAnswer | src/app/quiz/QuizComponent.tsx:128-166 | a second answer to the same question changes nothing; otherwise the answer is selected and recorded, the counters move as `AfterAnswer` says, the scheduled step is `ScheduleAfter`'s, and the session invariant is kept |
| QuizEngine.QuizSession.EndGame | src/app/quiz/QuizComponent.tsx:59-79 | the game is finished, the results record is the one for the current score, best streak, questions and answers, and the high score is stored exactly when the score beats it |
| QuizEngine.QuizSession.Advance | src/app/quiz/QuizComponent.tsx:116-125 | after the last question of a fixed game the game ends; otherwise the next question starts unanswered with a full timer |
| QuizEngine.QuizSession.ShouldFetch | src/app/quiz/QuizComponent.tsx:212-215 | more questions are wanted exactly in a survival game with questions held, no fetch under way, and at most 5 questions at or after the current one |
| QuizEngine.QuizSession.BeginRefetch | src/app/quiz/QuizComponent.tsx:211-218 | the refetch fires exactly in a survival game with questions, no fetch under way and at most 5 questions left, and then marks a fetch as under way |
| QuizEngine.QuizSession.AppendBatch | src/app/quiz/QuizComponent.tsx:220-231 | a batch with no asked id is appended after the held questions, which are unchanged, and its ids are added to the asked ids; no new question repeats an asked id or a held question's id; the fetch is marked done |
| QuizEngine.QuizSession.CompleteRefetch | src/app/quiz/QuizComponent.tsx:219-231 | the records the lookup returns for a draw excluding the asked ids are appended, at most 30 of them; none repeats an asked id or a held question's id, which follows from the draw; the fetch is marked done; when every record was already asked nothing changes and the fetch condition holds again as soon as it held when the fetch began |
| QuizEngine.QuizSession.Tick | src/app/quiz/QuizComponent.tsx:236-251 | nothing happens once answered, while loading or without questions; at zero the blank answer is given, a wrong answer that resets the streak; otherwise one second is taken off and nothing else changes |
| QuizEngine.QuizSession.CheckQuestionsLeft | src/app/quiz/QuizComponent.tsx:258-264 | with questions loaded, no current question and no fetch under way, the game ends; otherwise nothing changes |
| LegacyQuiz.AdvanceEndsAsWritten | src/app/quiz/page.tsx:69-70 | as written, the older advance step ends a fixed game exactly after its last question, and ends every survival game whose pre-answer strikes are at most 1 when it reads no selected answer |
| LegacyQuiz.EndsAfterAnswerAsWritten | src/app/quiz/page.tsx:68-84 | as written, across an answer and its scheduled step, a survival game ends exactly when its strikes before the answer were at most 1, a fixed game exactly after its last question, and a duel never |
| LegacyQuiz.SurvivalEndsAfterCorrectAnswerAsWritten | src/app/quiz/page.tsx:70 | as written, a survival game with one strike left ends after a correct answer, which keeps that strike; the intended rule lets it go on |
| LegacyQuiz.SurvivalEndsAfterCorrectAnswerExample | src/app/quiz/page.tsx:70 | a survival game with one strike, whose first of two questions is answered correctly, ends as written and goes on under the intended rule |
| LegacyQuiz.AsWrittenDiffersOnlyInSurvival | src/app/quiz/page.tsx:68-84 | outside survival, the older end test agrees with the intended one; in survival, it ends the game after an answer exactly when the strikes before that answer were at most 1 |
| LegacyQuiz.LegacyResultsAsWritten | src/app/quiz/page.tsx:47-60 | as written, the older results count the latest answers, but with the score and best streak from before the final answer |
| LegacyQuiz.LegacyResultsAfterAnswer | src/app/quiz/page.tsx:47-60 | read after the answer, the older results count the latest answers with the score and best streak `AfterAnswer` gives |
| LegacyQuiz.FinalPointsLeftOutAsWritten | src/app/quiz/page.tsx:47-48 | as written, the older results count every answer, but lack the final answer's points when that answer was correct, and the best streak it set when it was a new best |
| LegacyQuiz.LegacyQuizSession.constructor | src/app/quiz/page.tsx:181-184 | a fresh session is loading, with no questions, 3 strikes, zero counters, a full timer and the stored high score (0 when none) |
| LegacyQuiz.LegacyQuizSession.Initialize | src/app/quiz/page.tsx:155-175 | the shuffled selection, when non-empty, becomes the formatted questions; an empty one leaves them unchanged; loading ends either way |
| LegacyQuiz.LegacyQuizSession.HandleAnswer | src/app/quiz/page.tsx:87-127 | the same answer rules as the newer screen: a repeated answer changes nothing; otherwise the answer is recorded, the counters move as `AfterAnswer` says, and the scheduled step is `ScheduleAfter`'s |
| LegacyQuiz.LegacyQuizSession.EndGame | src/app/quiz/page.tsx:47-66 | the results record uses the answer list handed over and the current score and best streak; the high score is stored exactly when the score beats it |
| LegacyQuiz.LegacyQuizSession.Advance | src/app/quiz/page.tsx:68-84 | with the corrected end test, after the last question of a fixed game the game ends with the latest answers; otherwise the next question starts unanswered with a full timer |
| LegacyQuiz.LegacyQuizSession.Tick | src/app/quiz/page.tsx:189-203 | nothing happens once answered, while loading or without questions; at zero the blank answer is given; otherwise one second is taken off |

## Left out

- Question bank queries are not modelled; the records a category query returns are the `pool` parameter. This leaves out:
  - the `!firestore` guard;
  - the per-category `where` clause;
  - the 50-record `limit` of the older screen.
- QuizEngine.QuizSession.CompleteRefetch: the lookup by id that follows the draw (`in` on the drawn ids) is modelled only by its result. The lookup must return the drawn records, in an order of the bank's choosing. This holds because a record's id is unique in the bank; the bank itself is not part of this model. `Initialize` makes the same assumption.
- The `Mix` fallback after an empty first fetch is not modelled. In the newer screen it calls the fetch function again with an empty exclusion set. That function is bound to the same category, so the retry queries the same category again.
- The random comparator of `shuffleArray` is the `order` parameter. The probability distribution of the outcome is not modelled.
- Browser storage, the router and the redirect to the results page are left out. The stored high score is a constructor parameter; the stored results and high score are the `results` and `savedHighScore` fields. `parseInt` of the stored value is not modelled.
- Timers and effects run as explicit steps in the caller's order. Interleavings are not modelled. For example, an answer could arrive between a `BeginRefetch` and its `CompleteRefetch`, or a cancelled timer could fire late. Values read from an earlier render are modelled only in the "as written" members under Findings.
- Sounds, focus handling, rendering, the progress bar and the duel (`pvp`) screen are left out. `Pvp` appears only as a mode value.
- Scoring.AfterAnswer: scores are unbounded integers. JavaScript numbers are doubles, but no game comes near their exact-integer range.

## Findings

| source | as written | input that shows it | evidently intended | confidence | as-written member | corrected member |
|---|---|---|---|---|---|---|
| src/app/quiz/page.tsx:70 | the survival end test reads the strikes and the selected answer from before the answer that scheduled it, so `strikes - 1 <= 0` holds with one strike left and the missing selection never matches | survival game, one strike left, current question answered correctly | a correct answer keeps the strike and the game goes on, as in the newer screen | not executed | LegacyQuiz.SurvivalEndsAfterCorrectAnswerExample | LegacyQuiz.LegacyQuizSession.Advance |
| src/app/quiz/QuizComponent.tsx:59-61 | the end step scheduled by an answer (line 160, or line 166 then 118) reads the score, best streak and answer list from before that answer | fixed game of one question answered correctly with 15 seconds left: results count 0 answers and 0 points | results count the final answer: 1 correct answer and 270 points | not executed | QuizEngine.FinalAnswerLeftOutExample | QuizEngine.QuizSession.EndGame |
| src/app/quiz/page.tsx:47-48 | the older end step receives the latest answers, but its score is from before the final answer | any game whose final answer is correct: the stored score lacks that answer's points | the stored score includes the final answer's points | not executed | LegacyQuiz.FinalPointsLeftOutAsWritten | LegacyQuiz.LegacyQuizSession.EndGame |
