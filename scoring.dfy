/** The answer and end-of-game rules that both solo quiz screens apply:
    what an answer is worth, how the streak and the strikes move, and how the
    results record counts correct and wrong answers. */
module Scoring {
  import opened QuizTypes

  const QUESTION_TIME: int := 15
  const POINTS_PER_CORRECT: int := 100
  const STREAK_BONUS: int := 20
  const TIME_BONUS_MULTIPLIER: int := 10
  const TOTAL_STRIKES: int := 3

  /** The step an accepted answer leaves pending for two seconds later. */
  datatype Scheduled = NothingScheduled | AdvanceScheduled | EndScheduled

  /** The counters an answer changes. */
  datatype Tally = Tally(score: int, streak: nat, highestStreak: nat, strikes: int)

  /** The counters at the start of a game. */
  const InitialTally := Tally(0, 0, 0, TOTAL_STRIKES)

  /** The counters' own invariant: the best streak is never below the current one. */
  predicate TallyValid(t: Tally) {
    0 <= t.score && t.streak <= t.highestStreak && t.strikes <= TOTAL_STRIKES
  }

  /** An answer is correct when it is not blank and equals the correct answer. */
  function IsCorrect(answer: string, correctAnswer: string): (r: bool)
    ensures answer == "" ==> !r
    ensures r ==> answer == correctAnswer
    ensures answer != "" && answer == correctAnswer ==> r
  {
    answer != "" && answer == correctAnswer
  }

  /** The entry an answer adds to the list of answers: a blank (timed-out)
      answer is recorded as missing. */
  function RecordedAnswer(answer: string): (r: Option<string>)
    ensures r == None <==> answer == ""
    ensures r.Some? ==> r.value == answer
  {
    if answer == "" then None else Some(answer)
  }

  /** Points for a correct answer given with `timeLeft` seconds to spare,
      reaching a streak of `newStreak`. */
  function AnswerPoints(timeLeft: int, newStreak: nat): int {
    POINTS_PER_CORRECT + timeLeft * TIME_BONUS_MULTIPLIER + newStreak * STREAK_BONUS
  }

  /** The counters after one answer. */
  function AfterAnswer(t: Tally, correct: bool, timeLeft: int, mode: Mode): (r: Tally)
    ensures correct ==> r.score == t.score + 100 + 10 * timeLeft + 20 * (t.streak + 1)
    ensures correct ==> r.streak == t.streak + 1 && r.highestStreak == Max(t.highestStreak, r.streak)
    ensures !correct ==> r.score == t.score && r.streak == 0 && r.highestStreak == t.highestStreak
    ensures r.strikes == (if !correct && mode == Survival then t.strikes - 1 else t.strikes)
    ensures timeLeft >= 0 ==> r.score >= t.score
    ensures r.highestStreak >= t.highestStreak
    ensures timeLeft >= 0 && TallyValid(t) ==> TallyValid(r)
  {
    if correct then
      var newStreak := t.streak + 1;
      Tally(t.score + AnswerPoints(timeLeft, newStreak), newStreak,
            if newStreak > t.highestStreak then newStreak else t.highestStreak, t.strikes)
    else
      Tally(t.score, 0, t.highestStreak, if mode == Survival then t.strikes - 1 else t.strikes)
  }

  /** A wrong answer ends a survival game once the strikes are used up. */
  predicate EndsGame(after: Tally, correct: bool, mode: Mode) {
    !correct && mode == Survival && after.strikes <= 0
  }

  /** What an accepted answer schedules: the end of the game or the next question. */
  function ScheduleAfter(after: Tally, correct: bool, mode: Mode): (r: Scheduled)
    ensures r != NothingScheduled
    ensures r == EndScheduled <==> !correct && mode == Survival && after.strikes <= 0
    ensures correct || mode != Survival ==> r == AdvanceScheduled
  {
    if EndsGame(after, correct, mode) then EndScheduled else AdvanceScheduled
  }

  /** The advance step ends a fixed game after its last question; any other
      game moves on to the next index. */
  function AdvanceEnds(mode: Mode, index: nat, count: nat): (r: bool)
    ensures r ==> mode == Fixed
    ensures mode == Fixed ==> (r <==> index + 1 >= count)
  {
    mode == Fixed && index + 1 >= count
  }

  /** Whether a game ends after an answer: either the answer itself
      schedules the end, or it schedules the advance step and that step ends
      the game. `index` is the answered question's position and `count` the
      number of questions held. A survival game ends exactly when a wrong
      answer uses up the strikes, a fixed game exactly after its last
      question, and a duel game never ends here. */
  function EndsAfterAnswer(t: Tally, correct: bool, timeLeft: int, mode: Mode, index: nat, count: nat): (r: bool)
    ensures mode == Survival ==> (r <==> !correct && t.strikes - 1 <= 0)
    ensures mode == Fixed ==> (r <==> index + 1 >= count)
    ensures mode == Pvp ==> !r
  {
    var after := AfterAnswer(t, correct, timeLeft, mode);
    ScheduleAfter(after, correct, mode) == EndScheduled || AdvanceEnds(mode, index, count)
  }

  /** The high score the end of a game stores: the final score when it beats
      the high score the game started with, and nothing otherwise. */
  function HighScoreToStore(finalScore: int, highScore: int): (r: Option<int>)
    ensures r.Some? <==> finalScore > highScore
    ensures r.Some? ==> r.value == finalScore
  {
    if finalScore > highScore then Some(finalScore) else None
  }

  // ---------------------------------------------------------------------
  // A whole game's answers

  datatype Outcome = Outcome(correct: bool, timeLeft: int)

  /** The counters after a sequence of answers. */
  function Replay(t: Tally, outcomes: seq<Outcome>, mode: Mode): Tally
    decreases |outcomes|
  {
    if |outcomes| == 0 then t
    else Replay(AfterAnswer(t, outcomes[0].correct, outcomes[0].timeLeft, mode), outcomes[1..], mode)
  }

  function WrongCount(outcomes: seq<Outcome>): (r: nat)
    ensures r <= |outcomes|
  {
    if |outcomes| == 0 then 0
    else (if outcomes[0].correct then 0 else 1) + WrongCount(outcomes[1..])
  }

  /** Over a whole game the score never falls, the best streak stays at or
      above the current one, and strikes are lost exactly once per wrong
      answer in survival mode and never otherwise. */
  lemma {:induction false} ReplayKeepsInvariant(t: Tally, outcomes: seq<Outcome>, mode: Mode)
    requires TallyValid(t)
    requires forall i :: 0 <= i < |outcomes| ==> outcomes[i].timeLeft >= 0
    ensures var r := Replay(t, outcomes, mode);
      && TallyValid(r)
      && r.score >= t.score
      && r.highestStreak >= t.highestStreak
      && r.strikes == t.strikes - (if mode == Survival then WrongCount(outcomes) else 0)
    decreases |outcomes|
  {
    if |outcomes| > 0 {
      var t' := AfterAnswer(t, outcomes[0].correct, outcomes[0].timeLeft, mode);
      ReplayKeepsInvariant(t', outcomes[1..], mode);
    }
  }

  /** A survival game survives exactly `TOTAL_STRIKES - 1` wrong answers:
      the strikes reach zero at the third wrong answer and not before. */
  lemma SurvivalStrikesRunOut(outcomes: seq<Outcome>)
    requires forall i :: 0 <= i < |outcomes| ==> outcomes[i].timeLeft >= 0
    ensures Replay(InitialTally, outcomes, Survival).strikes <= 0
            <==> WrongCount(outcomes) >= TOTAL_STRIKES
  {
    ReplayKeepsInvariant(InitialTally, outcomes, Survival);
  }

  // ---------------------------------------------------------------------
  // The results record

  /** The answers at position `i` matches the correct answer of the question
      at the same position. */
  predicate MatchesAt(answers: seq<Option<string>>, keys: seq<string>, i: nat)
    requires i < |answers|
  {
    i < |keys| && answers[i] == Some(keys[i])
  }

  /** The number of positions where the answer matches the correct answer. */
  function CorrectCount(answers: seq<Option<string>>, keys: seq<string>): (r: nat)
    ensures r <= |answers|
  {
    if |answers| == 0 then 0
    else
      var n := |answers| - 1;
      CorrectCount(answers[..n], keys) + (if MatchesAt(answers, keys, n) then 1 else 0)
  }

  /** The positions whose answer is correct, as a set. */
  function MatchingPositions(answers: seq<Option<string>>, keys: seq<string>): set<nat> {
    set i: nat | i < |answers| && MatchesAt(answers, keys, i)
  }

  /** The count is the number of matching positions. */
  lemma {:induction false} CorrectCountIsMatchingPositions(answers: seq<Option<string>>, keys: seq<string>)
    ensures CorrectCount(answers, keys) == |MatchingPositions(answers, keys)|
  {
    if |answers| > 0 {
      var n := |answers| - 1;
      CorrectCountIsMatchingPositions(answers[..n], keys);
      var before := MatchingPositions(answers[..n], keys);
      var after := MatchingPositions(answers, keys);
      assert forall i: nat :: i < n ==> (MatchesAt(answers[..n], keys, i) <==> MatchesAt(answers, keys, i));
      if MatchesAt(answers, keys, n) {
        assert after == before + {n};
      } else {
        assert after == before;
      }
    }
  }

  datatype QuizResults<Q> = QuizResults(
    score: int,
    correctAnswers: nat,
    wrongAnswers: nat,
    totalQuestions: nat,
    questions: seq<Q>,
    userAnswers: seq<Option<string>>,
    highestStreak: nat,
    mode: Mode,
    category: Category)

  /** The results record the end of a game stores; `keys` are the correct
      answers of `questions`, position by position. */
  function BuildResults<Q>(score: int, highestStreak: nat, questions: seq<Q>, keys: seq<string>,
                           answers: seq<Option<string>>, mode: Mode, category: Category): (r: QuizResults<Q>)
    ensures r.correctAnswers == |MatchingPositions(answers, keys)|
    ensures r.correctAnswers + r.wrongAnswers == r.totalQuestions == |answers|
    ensures r.questions == questions[..Min(|answers|, |questions|)]
    ensures r.score == score && r.userAnswers == answers && r.highestStreak == highestStreak
    ensures r.mode == mode && r.category == category
  {
    var correct := CorrectCount(answers, keys);
    CorrectCountIsMatchingPositions(answers, keys);
    QuizResults(score, correct, |answers| - correct, |answers|,
                questions[..Min(|answers|, |questions|)], answers, highestStreak, mode, category)
  }
}
