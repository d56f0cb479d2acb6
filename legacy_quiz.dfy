/** The older solo quiz screen: the same answer rules as the newer one, a
    selection that shuffles the whole pool and keeps ten questions in a fixed
    game, no record of asked ids and no refetch. Its advance step also ends
    a survival game on a condition of its own, modelled here as written and
    then as evidently intended. */
module LegacyQuiz {
  import opened QuizTypes
  import opened Scoring
  import opened Selection

  /** The correct answers of `qs`, position by position: the helper the
      results record compares the answers with. */
  function LegacyAnswerKey(qs: seq<LegacyQuestion>): (keys: seq<string>)
    ensures |keys| == |qs|
    ensures forall i :: 0 <= i < |qs| ==> keys[i] == qs[i].correctAnswer
  {
    seq(|qs|, i requires 0 <= i < |qs| => qs[i].correctAnswer)
  }

  /** Whether `answer` is correct for the question at `index`; a blank
      answer is wrong even when there is no such question. */
  function LegacyAnswerCorrectAt(answer: string, qs: seq<LegacyQuestion>, index: nat): bool
    requires answer == "" || index < |qs|
  {
    answer != "" && IsCorrect(answer, qs[index].correctAnswer)
  }

  // ---------------------------------------------------------------------
  // The advance step's end condition as the older screen writes it

  /** The older advance step's end condition, on the values it reads: the
      last question of a fixed game, or a survival game whose `strikes - 1`
      is at most zero while `selectedAnswer` differs from the current
      question's correct answer (a missing question compares as different).
      The step is scheduled by the answer, so it reads `strikes` and
      `selectedAnswer` as they were before that answer: the strikes not yet
      lowered and no answer selected. */
  function AdvanceEndsAsWritten(mode: Mode, index: nat, questions: seq<LegacyQuestion>,
                                strikes: int, selectedAnswer: Option<string>): (r: bool)
    ensures mode == Survival && strikes <= 1 && selectedAnswer == None ==> r
    ensures mode == Fixed ==> (r <==> index + 1 >= |questions|)
  {
    var isLastQuestionFixed := mode == Fixed && index + 1 >= |questions|;
    var key := if index < |questions| then Some(questions[index].correctAnswer) else None;
    var sameAnswer := selectedAnswer.Some? && key.Some? && selectedAnswer.value == key.value;
    var isSurvivalEnd := mode == Survival && strikes - 1 <= 0 && !sameAnswer;
    isLastQuestionFixed || isSurvivalEnd
  }

  /** Whether the older screen ends the game after an answer, as written:
      the answer schedules the end, or the advance step it schedules ends
      the game on the values from before the answer. */
  function EndsAfterAnswerAsWritten(t: Tally, correct: bool, timeLeft: int, mode: Mode,
                                    index: nat, questions: seq<LegacyQuestion>): (r: bool)
    ensures mode == Survival ==> (r <==> t.strikes <= 1)
    ensures mode == Fixed ==> (r <==> index + 1 >= |questions|)
    ensures mode == Pvp ==> !r
  {
    var after := AfterAnswer(t, correct, timeLeft, mode);
    ScheduleAfter(after, correct, mode) == EndScheduled
    || AdvanceEndsAsWritten(mode, index, questions, t.strikes, None)
  }

  /** As written, a survival game with one strike left ends after a CORRECT
      answer, although that answer keeps the strike; the intended rule
      `EndsAfterAnswer` lets the game go on. */
  lemma SurvivalEndsAfterCorrectAnswerAsWritten(t: Tally, timeLeft: int, index: nat, questions: seq<LegacyQuestion>)
    requires t.strikes == 1
    ensures AfterAnswer(t, true, timeLeft, Survival).strikes == 1
    ensures EndsAfterAnswerAsWritten(t, true, timeLeft, Survival, index, questions)
    ensures !EndsAfterAnswer(t, true, timeLeft, Survival, index, |questions|)
  {
  }

  /** The same discrepancy on one concrete game: one strike left, the first
      of two questions answered correctly with ten seconds to spare. */
  lemma SurvivalEndsAfterCorrectAnswerExample()
    ensures var questions := [LegacyQuestion("q1", ["a", "b"], "a"), LegacyQuestion("q2", ["c", "d"], "c")];
      var t := Tally(300, 0, 1, 1);
      && EndsAfterAnswerAsWritten(t, LegacyAnswerCorrectAt("a", questions, 0), 10, Survival, 0, questions)
      && !EndsAfterAnswer(t, LegacyAnswerCorrectAt("a", questions, 0), 10, Survival, 0, |questions|)
  {
    var questions := [LegacyQuestion("q1", ["a", "b"], "a"), LegacyQuestion("q2", ["c", "d"], "c")];
    assert LegacyAnswerCorrectAt("a", questions, 0);
    SurvivalEndsAfterCorrectAnswerAsWritten(Tally(300, 0, 1, 1), 10, 0, questions);
  }

  /** As written, the end condition agrees with the intended one except in a
      survival game: there every answer given with at most one strike left
      ends the game, whatever the answer. */
  lemma AsWrittenDiffersOnlyInSurvival(t: Tally, correct: bool, timeLeft: int, mode: Mode,
                                       index: nat, questions: seq<LegacyQuestion>)
    ensures mode != Survival ==>
      EndsAfterAnswerAsWritten(t, correct, timeLeft, mode, index, questions)
      == EndsAfterAnswer(t, correct, timeLeft, mode, index, |questions|)
    ensures mode == Survival ==>
      (EndsAfterAnswerAsWritten(t, correct, timeLeft, mode, index, questions) <==> t.strikes <= 1)
  {
  }

  // ---------------------------------------------------------------------
  // The results the older screen's end step stores, as written

  /** As written, the end step an answer schedules hands the latest list of
      answers to the end-of-game code, but that code is the one of the
      render the answer was given in and reads the score and the best streak
      from before the answer. This is the results record it stores. */
  function LegacyResultsAsWritten(before: Tally, questions: seq<LegacyQuestion>, answersAfter: seq<Option<string>>,
                                  mode: Mode, category: Category): (r: QuizResults<LegacyQuestion>)
    ensures r.totalQuestions == |answersAfter| && r.userAnswers == answersAfter
    ensures r.score == before.score && r.highestStreak == before.highestStreak
  {
    BuildResults(before.score, before.highestStreak, questions, LegacyAnswerKey(questions), answersAfter, mode, category)
  }

  /** The results record the same end step stores when it reads the score
      and best streak the answer left: the one `LegacyQuizSession.EndGame`
      stores. */
  function LegacyResultsAfterAnswer(before: Tally, correct: bool, timeLeft: int, questions: seq<LegacyQuestion>,
                                    answersAfter: seq<Option<string>>, mode: Mode, category: Category)
    : (r: QuizResults<LegacyQuestion>)
    ensures r.totalQuestions == |answersAfter| && r.userAnswers == answersAfter
    ensures r.score == AfterAnswer(before, correct, timeLeft, mode).score
    ensures r.highestStreak == AfterAnswer(before, correct, timeLeft, mode).highestStreak
  {
    var after := AfterAnswer(before, correct, timeLeft, mode);
    BuildResults(after.score, after.highestStreak, questions, LegacyAnswerKey(questions), answersAfter, mode, category)
  }

  /** As written, the older screen counts the final answer but leaves its
      points out of the stored score when it was correct, and leaves out
      the best streak it set when it was a new best. */
  lemma FinalPointsLeftOutAsWritten(before: Tally, correct: bool, timeLeft: int, questions: seq<LegacyQuestion>,
                                    answersAfter: seq<Option<string>>, mode: Mode, category: Category)
    requires timeLeft >= 0
    ensures var written := LegacyResultsAsWritten(before, questions, answersAfter, mode, category);
      var intended := LegacyResultsAfterAnswer(before, correct, timeLeft, questions, answersAfter, mode, category);
      && written.correctAnswers == intended.correctAnswers
      && written.totalQuestions == intended.totalQuestions
      && (correct ==> written.score < intended.score)
      && (correct && before.streak + 1 > before.highestStreak ==> written.highestStreak < intended.highestStreak)
  {
  }

  // ---------------------------------------------------------------------
  // The session

  class LegacyQuizSession {
    const mode: Mode
    const category: Category
    /** The high score kept for this category and mode when the game
        started; 0 when none is kept. */
    const highScore: int

    var quizQuestions: seq<LegacyQuestion>
    var currentQuestionIndex: nat
    var score: int
    var streak: nat
    var highestStreak: nat
    var strikes: int
    var selectedAnswer: Option<string>
    var isAnswered: bool
    var timeLeft: int
    var userAnswers: seq<Option<string>>
    var isLoading: bool
    /** The results record the end of the game stores for the results screen;
        storing it is also when the screen leaves for the results page. */
    var results: Option<QuizResults<LegacyQuestion>>
    /** The high score the end of the game stores, when it stores one. */
    var savedHighScore: Option<int>

    /** The counters an answer changes. */
    function Counters(): Tally
      reads this`score, this`streak, this`highestStreak, this`strikes
    {
      Tally(score, streak, highestStreak, strikes)
    }

    /** The counters keep their own invariant, and only survival games lose strikes. */
    ghost predicate CountersValid()
      reads this`score, this`streak, this`highestStreak, this`strikes
    {
      && TallyValid(Counters())
      && (mode != Survival ==> strikes == TOTAL_STRIKES)
    }

    /** One recorded answer per question passed, plus the current one once
        it is answered; the timer stays within a question's time. */
    ghost predicate AnswersValid()
      reads this`currentQuestionIndex, this`isAnswered, this`selectedAnswer, this`userAnswers, this`timeLeft
    {
      && 0 <= timeLeft <= QUESTION_TIME
      && |userAnswers| == currentQuestionIndex + (if isAnswered then 1 else 0)
      && (isAnswered <==> selectedAnswer.Some?)
    }

    ghost predicate Valid()
      reads this
    {
      CountersValid() && AnswersValid()
    }

    /** The results record the end of the game would store with `answers`
        as the list of answers. */
    function ResultsWith(answers: seq<Option<string>>): QuizResults<LegacyQuestion>
      reads this`score, this`highestStreak, this`quizQuestions
    {
      BuildResults(score, highestStreak, quizQuestions, LegacyAnswerKey(quizQuestions), answers, mode, category)
    }

    /** A fresh session, still loading; `storedHighScore` is the high score
        kept for this category and mode, if any. */
    constructor (mode: Mode, category: Category, storedHighScore: Option<int>)
      ensures Valid()
      ensures this.mode == mode && this.category == category
      ensures highScore == (if storedHighScore.Some? then storedHighScore.value else 0)
      ensures quizQuestions == [] && currentQuestionIndex == 0
      ensures Counters() == InitialTally
      ensures selectedAnswer == None && !isAnswered && timeLeft == QUESTION_TIME && userAnswers == []
      ensures isLoading && results == None && savedHighScore == None
    {
      this.mode := mode;
      this.category := category;
      highScore := if storedHighScore.Some? then storedHighScore.value else 0;
      quizQuestions := [];
      currentQuestionIndex := 0;
      score := 0;
      streak := 0;
      highestStreak := 0;
      strikes := TOTAL_STRIKES;
      selectedAnswer := None;
      isAnswered := false;
      timeLeft := QUESTION_TIME;
      userAnswers := [];
      isLoading := true;
      results := None;
      savedHighScore := None;
    }

    /** The load, once the question bank has answered with `allQuestions`:
        shuffle them, keep ten in a fixed game, and format what is kept, one
        option order per question. When nothing is kept the session keeps no
        questions. Loading ends either way. */
    method Initialize(allQuestions: seq<RawQuestion>, order: seq<nat>, optionOrders: seq<seq<nat>>)
      requires Valid()
      modifies this`quizQuestions, this`isLoading
      ensures Valid()
      ensures var selected := LegacySelect(allQuestions, mode, order);
        && (|selected| > 0 ==> quizQuestions == LegacyFormatAll(selected, optionOrders))
        && (|selected| == 0 ==> quizQuestions == old(quizQuestions))
      ensures !isLoading
    {
      var selectedQuestions := LegacySelect(allQuestions, mode, order);
      if |selectedQuestions| > 0 {
        quizQuestions := LegacyFormatAll(selectedQuestions, optionOrders);
      }
      isLoading := false;
    }

    /** An answer to the current question, or `""` when time ran out; the
        rules are those of the newer screen. */
    method HandleAnswer(answer: string) returns (next: Scheduled)
      requires Valid()
      requires answer == "" || currentQuestionIndex < |quizQuestions|
      modifies this`isAnswered, this`selectedAnswer, this`userAnswers,
               this`score, this`streak, this`highestStreak, this`strikes
      ensures Valid()
      ensures old(isAnswered) ==> next == NothingScheduled && unchanged(this)
      ensures !old(isAnswered) ==>
        var correct := LegacyAnswerCorrectAt(answer, quizQuestions, currentQuestionIndex);
        && isAnswered && selectedAnswer == Some(answer)
        && userAnswers == old(userAnswers) + [RecordedAnswer(answer)]
        && Counters() == AfterAnswer(old(Counters()), correct, timeLeft, mode)
        && next == ScheduleAfter(Counters(), correct, mode)
    {
      if isAnswered {
        return NothingScheduled;
      }
      isAnswered := true;
      selectedAnswer := Some(answer);
      userAnswers := userAnswers + [RecordedAnswer(answer)];
      var isCorrect := LegacyAnswerCorrectAt(answer, quizQuestions, currentQuestionIndex);
      if isCorrect {
        var newStreak := streak + 1;
        var timeBonus := timeLeft * TIME_BONUS_MULTIPLIER;
        var streakBonus := newStreak * STREAK_BONUS;
        score := score + POINTS_PER_CORRECT + timeBonus + streakBonus;
        streak := newStreak;
        if newStreak > highestStreak {
          highestStreak := newStreak;
        }
      } else {
        streak := 0;
        if mode == Survival {
          var newStrikes := strikes - 1;
          strikes := newStrikes;
          if newStrikes <= 0 {
            return EndScheduled;
          }
        }
      }
      next := AdvanceScheduled;
    }

    /** The end of the game with `finalUserAnswers` as the list of answers
        (the screen hands over the latest list): store the high score when
        the score beats it, and store the results record. */
    method EndGame(finalUserAnswers: seq<Option<string>>)
      requires Valid()
      modifies this`results, this`savedHighScore
      ensures Valid()
      ensures results == Some(ResultsWith(finalUserAnswers))
      ensures savedHighScore == (if score > highScore then Some(score) else old(savedHighScore))
    {
      var finalScore := score;
      var stored := HighScoreToStore(finalScore, highScore);
      if stored.Some? {
        savedHighScore := stored;
      }
      results := Some(BuildResults(finalScore, highestStreak, quizQuestions, LegacyAnswerKey(quizQuestions),
                                   finalUserAnswers, mode, category));
    }

    /** The step after an accepted answer, with the end condition as
        evidently intended (`AdvanceEnds`): a fixed game ends after its last
        question, with the latest answers; otherwise the next question
        starts unanswered with a full timer. */
    method Advance()
      requires Valid() && isAnswered
      modifies this`currentQuestionIndex, this`isAnswered, this`selectedAnswer, this`timeLeft,
               this`results, this`savedHighScore
      ensures Valid()
      ensures AdvanceEnds(mode, old(currentQuestionIndex), |quizQuestions|) ==>
        && results == Some(ResultsWith(userAnswers))
        && savedHighScore == (if score > highScore then Some(score) else old(savedHighScore))
        && unchanged(this`currentQuestionIndex, this`isAnswered, this`selectedAnswer, this`timeLeft)
      ensures !AdvanceEnds(mode, old(currentQuestionIndex), |quizQuestions|) ==>
        && currentQuestionIndex == old(currentQuestionIndex) + 1
        && !isAnswered && selectedAnswer == None && timeLeft == QUESTION_TIME
        && unchanged(this`results, this`savedHighScore)
    {
      if AdvanceEnds(mode, currentQuestionIndex, |quizQuestions|) {
        EndGame(userAnswers);
      } else {
        currentQuestionIndex := currentQuestionIndex + 1;
        isAnswered := false;
        selectedAnswer := None;
        timeLeft := QUESTION_TIME;
      }
    }

    /** One second of the countdown. Nothing happens once the question is
        answered, while loading, or without questions; at zero the blank
        answer is submitted (the decrement the screen also schedules is
        cancelled when the answer re-runs the effect); otherwise one second
        is taken off. */
    method Tick() returns (next: Scheduled)
      requires Valid()
      modifies this`timeLeft, this`isAnswered, this`selectedAnswer, this`userAnswers,
               this`score, this`streak, this`highestStreak, this`strikes
      ensures Valid()
      ensures old(isAnswered || isLoading || |quizQuestions| == 0) ==>
        next == NothingScheduled && unchanged(this)
      ensures !old(isAnswered || isLoading || |quizQuestions| == 0) && old(timeLeft) <= 0 ==>
        && isAnswered && selectedAnswer == Some("")
        && userAnswers == old(userAnswers) + [None]
        && Counters() == AfterAnswer(old(Counters()), false, old(timeLeft), mode)
        && streak == 0 && timeLeft == old(timeLeft)
        && next == ScheduleAfter(Counters(), false, mode)
      ensures !old(isAnswered || isLoading || |quizQuestions| == 0) && old(timeLeft) > 0 ==>
        && timeLeft == old(timeLeft) - 1 && next == NothingScheduled
        && unchanged(this`isAnswered, this`selectedAnswer, this`userAnswers)
        && Counters() == old(Counters())
    {
      if isAnswered || isLoading || |quizQuestions| == 0 {
        return NothingScheduled;
      }
      if timeLeft <= 0 {
        next := HandleAnswer("");
        return;
      }
      timeLeft := timeLeft - 1;
      next := NothingScheduled;
    }
  }
}
