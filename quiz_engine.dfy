/** The newer solo quiz screen: a game session whose fields the screen's
    handlers update one step at a time. Each handler is a method here; the
    two-second pause after an answer becomes the `Scheduled` value the
    answer returns, and the one-second countdown becomes `Tick`. */
module QuizEngine {
  import opened QuizTypes
  import opened Scoring
  import opened Selection

  /** A survival game fetches more questions once this many or fewer are left. */
  const SURVIVAL_FETCH_THRESHOLD: int := 5

  /** The correct answers of `qs`, position by position: the helper the
      results record compares the answers with. */
  function AnswerKey(qs: seq<Question>): (keys: seq<string>)
    ensures |keys| == |qs|
    ensures forall i :: 0 <= i < |qs| ==> keys[i] == qs[i].correctAnswer
  {
    seq(|qs|, i requires 0 <= i < |qs| => qs[i].correctAnswer)
  }

  /** Appending questions whose ids were not asked before, and adding their
      ids to the asked ones, keeps every held question's id asked and
      leaves the new ids apart from the old ones. */
  lemma AppendKeepsAskedIds(held: seq<Question>, asked: set<string>, added: seq<Question>, addedIds: set<string>)
    requires forall i :: 0 <= i < |held| ==> held[i].id in asked
    requires forall i :: 0 <= i < |added| ==> added[i].id in addedIds && added[i].id !in asked
    ensures var all := held + added;
      && all[..|held|] == held
      && (forall i :: 0 <= i < |all| ==> all[i].id in asked + addedIds)
      && (forall i :: |held| <= i < |all| ==> all[i].id !in asked)
      && (forall i, j :: 0 <= i < |held| <= j < |all| ==> all[i].id != all[j].id)
  {
    var all := held + added;
    assert all[..|held|] == held;
    forall i | |held| <= i < |all|
      ensures all[i].id !in asked && all[i].id in addedIds
    {
      assert all[i] == added[i - |held|];
    }
  }

  /** Whether `answer` is correct for the question at `index`; a blank
      answer is wrong even when there is no such question. */
  function AnswerCorrectAt(answer: string, qs: seq<Question>, index: nat): bool
    requires answer == "" || index < |qs|
  {
    answer != "" && IsCorrect(answer, qs[index].correctAnswer)
  }

  // ---------------------------------------------------------------------
  // The results an end step scheduled by an answer stores

  /** As written, the step an answer schedules is the advance or end code of
      the render the answer was given in, so the end-of-game code it runs
      reads the score, the best streak and the list of answers from before
      that answer. This is the results record it stores. */
  function ResultsAsWritten(before: Tally, questions: seq<Question>, answersBefore: seq<Option<string>>,
                            mode: Mode, category: Category): (r: QuizResults<Question>)
    ensures r.totalQuestions == |answersBefore| && r.userAnswers == answersBefore
    ensures r.score == before.score && r.highestStreak == before.highestStreak
  {
    BuildResults(before.score, before.highestStreak, questions, AnswerKey(questions), answersBefore, mode, category)
  }

  /** The results record the same end step stores when it reads the state
      the answer left: the one `QuizSession.EndGame` stores. */
  function ResultsAfterAnswer(before: Tally, correct: bool, timeLeft: int, answer: string,
                              questions: seq<Question>, answersBefore: seq<Option<string>>,
                              mode: Mode, category: Category): (r: QuizResults<Question>)
    ensures r.totalQuestions == |answersBefore| + 1 && r.userAnswers == answersBefore + [RecordedAnswer(answer)]
    ensures r.score == AfterAnswer(before, correct, timeLeft, mode).score
    ensures r.highestStreak == AfterAnswer(before, correct, timeLeft, mode).highestStreak
  {
    var after := AfterAnswer(before, correct, timeLeft, mode);
    BuildResults(after.score, after.highestStreak, questions, AnswerKey(questions),
                 answersBefore + [RecordedAnswer(answer)], mode, category)
  }

  /** As written, the results of a game leave out its final answer: one
      answer fewer is counted, a correct final answer's points are missing
      from the score, and a best streak it set is missing too. */
  lemma FinalAnswerLeftOutAsWritten(before: Tally, correct: bool, timeLeft: int, answer: string,
                                    questions: seq<Question>, answersBefore: seq<Option<string>>,
                                    mode: Mode, category: Category)
    requires timeLeft >= 0
    ensures ResultsAsWritten(before, questions, answersBefore, mode, category).totalQuestions + 1
            == ResultsAfterAnswer(before, correct, timeLeft, answer, questions, answersBefore, mode, category).totalQuestions
    ensures correct ==>
      ResultsAsWritten(before, questions, answersBefore, mode, category).score
      < ResultsAfterAnswer(before, correct, timeLeft, answer, questions, answersBefore, mode, category).score
    ensures correct && before.streak + 1 > before.highestStreak ==>
      ResultsAsWritten(before, questions, answersBefore, mode, category).highestStreak
      < ResultsAfterAnswer(before, correct, timeLeft, answer, questions, answersBefore, mode, category).highestStreak
  {
  }

  /** The same on one concrete game: a fixed game of one question, answered
      correctly with the whole 15 seconds left. As written its results count
      no answer and no points; read after the answer they count one correct
      answer and 270 points. */
  lemma FinalAnswerLeftOutExample()
    ensures var questions := [Question("id1", "q1", ["a", "b"], "a", Musica)];
      var written := ResultsAsWritten(InitialTally, questions, [], Fixed, Musica);
      var intended := ResultsAfterAnswer(InitialTally, AnswerCorrectAt("a", questions, 0), QUESTION_TIME, "a",
                                         questions, [], Fixed, Musica);
      && written.totalQuestions == 0 && written.correctAnswers == 0 && written.score == 0
      && intended.totalQuestions == 1 && intended.correctAnswers == 1 && intended.score == 270
  {
    var questions := [Question("id1", "q1", ["a", "b"], "a", Musica)];
    assert AnswerCorrectAt("a", questions, 0);
    var answers := [RecordedAnswer("a")];
    assert MatchingPositions(answers, AnswerKey(questions)) == {0};
    assert MatchingPositions([], AnswerKey(questions)) == {};
  }

  class QuizSession {
    const mode: Mode
    const category: Category
    /** The high score kept for this category and mode when the game
        started; 0 when none is kept. */
    const highScore: int

    var quizQuestions: seq<Question>
    var askedQuestionIds: set<string>
    var currentQuestionIndex: nat
    var score: int
    var streak: nat
    var highestStreak: nat
    var strikes: int
    var selectedAnswer: Option<string>
    var isAnswered: bool
    var timeLeft: int
    var userAnswers: seq<Option<string>>
    var isLoading: bool
    var isGameFinished: bool
    var isFetchingMore: bool
    /** The results record the end of the game stores for the results screen. */
    var results: Option<QuizResults<Question>>
    /** The high score the end of the game stores, when it stores one. */
    var savedHighScore: Option<int>

    /** The counters an answer changes. */
    function Counters(): Tally
      reads this`score, this`streak, this`highestStreak, this`strikes
    {
      Tally(score, streak, highestStreak, strikes)
    }

    /** The counters keep their own invariant, and only survival games lose strikes. */
    ghost predicate CountersValid()
      reads this`score, this`streak, this`highestStreak, this`strikes
    {
      && TallyValid(Counters())
      && (mode != Survival ==> strikes == TOTAL_STRIKES)
    }

    /** One recorded answer per question passed, plus the current one once
        it is answered; the timer stays within a question's time. */
    ghost predicate AnswersValid()
      reads this`currentQuestionIndex, this`isAnswered, this`selectedAnswer, this`userAnswers, this`timeLeft
    {
      && 0 <= timeLeft <= QUESTION_TIME
      && |userAnswers| == currentQuestionIndex + (if isAnswered then 1 else 0)
      && (isAnswered <==> selectedAnswer.Some?)
    }

    /** Every question held has been recorded as asked. */
    ghost predicate QuestionsValid()
      reads this`quizQuestions, this`askedQuestionIds
    {
      forall i :: 0 <= i < |quizQuestions| ==> quizQuestions[i].id in askedQuestionIds
    }

    ghost predicate Valid()
      reads this
    {
      CountersValid() && AnswersValid() && QuestionsValid()
    }

    /** The results record the state would produce now. */
    function CurrentResults(): QuizResults<Question>
      reads this
    {
      BuildResults(score, highestStreak, quizQuestions, AnswerKey(quizQuestions), userAnswers, mode, category)
    }

    /** A fresh session, still loading; `storedHighScore` is the high score
        kept for this category and mode, if any. */
    constructor (mode: Mode, category: Category, storedHighScore: Option<int>)
      ensures Valid()
      ensures this.mode == mode && this.category == category
      ensures highScore == (if storedHighScore.Some? then storedHighScore.value else 0)
      ensures quizQuestions == [] && askedQuestionIds == {} && currentQuestionIndex == 0
      ensures Counters() == InitialTally
      ensures selectedAnswer == None && !isAnswered && timeLeft == QUESTION_TIME && userAnswers == []
      ensures isLoading && !isGameFinished && !isFetchingMore
      ensures results == None && savedHighScore == None
    {
      this.mode := mode;
      this.category := category;
      highScore := if storedHighScore.Some? then storedHighScore.value else 0;
      quizQuestions := [];
      askedQuestionIds := {};
      currentQuestionIndex := 0;
      score := 0;
      streak := 0;
      highestStreak := 0;
      strikes := TOTAL_STRIKES;
      selectedAnswer := None;
      isAnswered := false;
      timeLeft := QUESTION_TIME;
      userAnswers := [];
      isLoading := true;
      isGameFinished := false;
      isFetchingMore := false;
      results := None;
      savedHighScore := None;
    }

    /** Keeps a fetched batch as the game's questions, formatted with one
        option order each, and its ids as the asked ids; an empty batch
        changes neither. Loading ends either way. */
    method LoadBatch(fetched: seq<RawQuestion>, optionOrders: seq<seq<nat>>)
      requires Valid()
      modifies this`quizQuestions, this`askedQuestionIds, this`isLoading
      ensures Valid()
      ensures |fetched| > 0 ==> quizQuestions == FormatAll(fetched, optionOrders)
                                && askedQuestionIds == RawIds(fetched)
      ensures |fetched| == 0 ==> unchanged(this`quizQuestions, this`askedQuestionIds)
      ensures !isLoading
    {
      if |fetched| > 0 {
        var newQuestions := FormatAll(fetched, optionOrders);
        FormattedIds(fetched, optionOrders);
        quizQuestions := newQuestions;
        askedQuestionIds := RawIds(fetched);
      }
      isLoading := false;
    }

    /** The first load. The category's records are `pool`; the fetch draws
        from them with nothing excluded, shuffled by `order`, and the lookup
        by id returns the drawn records as `fetched`, in the bank's order.
        They are kept as `LoadBatch` says: at most ten questions in a fixed
        game and at most thirty otherwise. An empty category leaves the
        session without questions. Loading ends either way. */
    method Initialize(pool: seq<RawQuestion>, order: seq<nat>, fetched: seq<RawQuestion>,
                      optionOrders: seq<seq<nat>>)
      requires Valid()
      requires multiset(fetched) == multiset(SelectQuestions(pool, {}, mode, order))
      modifies this`quizQuestions, this`askedQuestionIds, this`isLoading
      ensures Valid()
      ensures |pool| > 0 ==> && quizQuestions == FormatAll(fetched, optionOrders)
                             && askedQuestionIds == RawIds(fetched)
                             && 0 < |quizQuestions| <= QuestionLimit(mode)
      ensures |pool| == 0 ==> unchanged(this`quizQuestions, this`askedQuestionIds)
      ensures !isLoading
    {
      LookupOfDraw(fetched, pool, {}, mode, order);
      LoadBatch(fetched, optionOrders);
    }

    /** An answer to the current question, or `""` when time ran out. Once
        the question is answered further answers are ignored. Otherwise the
        answer is recorded (a blank one as missing), the counters move as
        `AfterAnswer` says, and the step two seconds later is the end of the
        game when a survival game has used up its strikes and the next
        question otherwise. */
    method HandleAnswer(answer: string) returns (next: Scheduled)
      requires Valid()
      requires answer == "" || currentQuestionIndex < |quizQuestions|
      modifies this`isAnswered, this`selectedAnswer, this`userAnswers,
               this`score, this`streak, this`highestStreak, this`strikes
      ensures Valid()
      ensures old(isAnswered) ==> next == NothingScheduled && unchanged(this)
      ensures !old(isAnswered) ==>
        var correct := AnswerCorrectAt(answer, quizQuestions, currentQuestionIndex);
        && isAnswered && selectedAnswer == Some(answer)
        && userAnswers == old(userAnswers) + [RecordedAnswer(answer)]
        && Counters() == AfterAnswer(old(Counters()), correct, timeLeft, mode)
        && next == ScheduleAfter(Counters(), correct, mode)
    {
      if isAnswered {
        return NothingScheduled;
      }
      isAnswered := true;
      selectedAnswer := Some(answer);
      userAnswers := userAnswers + [RecordedAnswer(answer)];
      var isCorrect := AnswerCorrectAt(answer, quizQuestions, currentQuestionIndex);
      if isCorrect {
        var newStreak := streak + 1;
        var timeBonus := timeLeft * TIME_BONUS_MULTIPLIER;
        var streakBonus := newStreak * STREAK_BONUS;
        score := score + POINTS_PER_CORRECT + timeBonus + streakBonus;
        streak := newStreak;
        if newStreak > highestStreak {
          highestStreak := newStreak;
        }
      } else {
        streak := 0;
        if mode == Survival {
          var newStrikes := strikes - 1;
          strikes := newStrikes;
          if newStrikes <= 0 {
            return EndScheduled;
          }
        }
      }
      next := AdvanceScheduled;
    }

    /** The end of the game: store the high score when the final score beats
        it, and store the results record, which counts position by position
        the answers equal to the correct answer. */
    method EndGame()
      requires Valid()
      modifies this`isGameFinished, this`results, this`savedHighScore
      ensures Valid()
      ensures isGameFinished
      ensures results == Some(CurrentResults())
      ensures savedHighScore == (if score > highScore then Some(score) else old(savedHighScore))
    {
      var finalUserAnswers := userAnswers;
      var finalScore := score;
      var stored := HighScoreToStore(finalScore, highScore);
      if stored.Some? {
        savedHighScore := stored;
      }
      results := Some(BuildResults(finalScore, highestStreak, quizQuestions, AnswerKey(quizQuestions),
                                   finalUserAnswers, mode, category));
      isGameFinished := true;
    }

    /** The step after an accepted answer: a fixed game ends after its last
        question; otherwise the next question starts unanswered with a full
        timer. */
    method Advance()
      requires Valid() && isAnswered
      modifies this`currentQuestionIndex, this`isAnswered, this`selectedAnswer, this`timeLeft,
               this`isGameFinished, this`results, this`savedHighScore
      ensures Valid()
      ensures AdvanceEnds(mode, old(currentQuestionIndex), |quizQuestions|) ==>
        && isGameFinished && results == Some(CurrentResults())
        && savedHighScore == (if score > highScore then Some(score) else old(savedHighScore))
        && unchanged(this`currentQuestionIndex, this`isAnswered, this`selectedAnswer, this`timeLeft)
      ensures !AdvanceEnds(mode, old(currentQuestionIndex), |quizQuestions|) ==>
        && currentQuestionIndex == old(currentQuestionIndex) + 1
        && !isAnswered && selectedAnswer == None && timeLeft == QUESTION_TIME
        && unchanged(this`isGameFinished, this`results, this`savedHighScore)
    {
      if mode == Fixed && currentQuestionIndex + 1 >= |quizQuestions| {
        EndGame();
      } else {
        currentQuestionIndex := currentQuestionIndex + 1;
        isAnswered := false;
        selectedAnswer := None;
        timeLeft := QUESTION_TIME;
      }
    }

    /** The condition under which a survival game asks for more questions:
        questions are held, no fetch is under way, and at most five of them
        are at or after the current one. */
    function ShouldFetch(): (r: bool)
      reads this
      ensures r <==> && mode == Survival && !isFetchingMore && |quizQuestions| > 0
                     && |quizQuestions| <= currentQuestionIndex + SURVIVAL_FETCH_THRESHOLD
    {
      && mode == Survival
      && !isFetchingMore
      && |quizQuestions| > 0
      && |quizQuestions| - currentQuestionIndex <= SURVIVAL_FETCH_THRESHOLD
    }

    /** The refetch effect's start: it fires only in a survival game with no
        fetch under way and at most five questions left, and then marks a
        fetch as under way. */
    method BeginRefetch() returns (fired: bool)
      requires Valid()
      modifies this`isFetchingMore
      ensures Valid()
      ensures fired == old(ShouldFetch())
      ensures fired ==> mode == Survival && isFetchingMore
      ensures !fired ==> isFetchingMore == old(isFetchingMore)
    {
      fired := ShouldFetch();
      if fired {
        isFetchingMore := true;
      }
    }

    /** Appends a fetched batch whose ids were never asked: the formatted
        questions go after the ones held, their ids join the asked ids, and
        the fetch is marked as done. */
    method AppendBatch(newRawQuestions: seq<RawQuestion>, optionOrders: seq<seq<nat>>)
      requires Valid()
      requires forall i :: 0 <= i < |newRawQuestions| ==> newRawQuestions[i].id !in askedQuestionIds
      modifies this`quizQuestions, this`askedQuestionIds, this`isFetchingMore
      ensures Valid()
      ensures quizQuestions == old(quizQuestions) + FormatAll(newRawQuestions, optionOrders)
      ensures askedQuestionIds == old(askedQuestionIds) + RawIds(newRawQuestions)
      ensures quizQuestions[..|old(quizQuestions)|] == old(quizQuestions)
      ensures forall i :: |old(quizQuestions)| <= i < |quizQuestions| ==>
        quizQuestions[i].id !in old(askedQuestionIds)
      ensures forall i, j :: 0 <= i < |old(quizQuestions)| <= j < |quizQuestions| ==>
        quizQuestions[i].id != quizQuestions[j].id
      ensures |newRawQuestions| == 0 ==> unchanged(this`quizQuestions, this`askedQuestionIds)
      ensures !isFetchingMore
    {
      var newFormattedQuestions := FormatAll(newRawQuestions, optionOrders);
      FormattedIds(newRawQuestions, optionOrders);
      AppendKeepsAskedIds(quizQuestions, askedQuestionIds, newFormattedQuestions, RawIds(newRawQuestions));
      if |newRawQuestions| > 0 {
        quizQuestions := quizQuestions + newFormattedQuestions;
        askedQuestionIds := askedQuestionIds + RawIds(newRawQuestions);
      }
      isFetchingMore := false;
    }

    /** The refetch effect's completion. The category's records are `pool`;
        the fetch draws from them excluding every id asked so far, shuffled
        by `order`, and the lookup by id returns the drawn records as
        `newRawQuestions`, in the bank's order. None of them was asked
        before, so they are appended as `AppendBatch` says: at most thirty
        in a survival game. When every record was already asked nothing is
        appended, and the session meets the fetch condition again whenever
        it met it when the fetch began: the effect fires once more. */
    method CompleteRefetch(pool: seq<RawQuestion>, order: seq<nat>, newRawQuestions: seq<RawQuestion>,
                           optionOrders: seq<seq<nat>>)
      requires Valid() && isFetchingMore
      requires multiset(newRawQuestions) == multiset(SelectQuestions(pool, askedQuestionIds, mode, order))
      modifies this`quizQuestions, this`askedQuestionIds, this`isFetchingMore
      ensures Valid()
      ensures quizQuestions == old(quizQuestions) + FormatAll(newRawQuestions, optionOrders)
      ensures askedQuestionIds == old(askedQuestionIds) + RawIds(newRawQuestions)
      ensures forall i :: |old(quizQuestions)| <= i < |quizQuestions| ==>
        quizQuestions[i].id !in old(askedQuestionIds)
      ensures forall i, j :: 0 <= i < |old(quizQuestions)| <= j < |quizQuestions| ==>
        quizQuestions[i].id != quizQuestions[j].id
      ensures |quizQuestions| <= |old(quizQuestions)| + QuestionLimit(mode)
      ensures !isFetchingMore
      ensures (forall i :: 0 <= i < |pool| ==> pool[i].id in old(askedQuestionIds)) ==>
        && unchanged(this`quizQuestions, this`askedQuestionIds)
        && (ShouldFetch() <==> mode == Survival && |quizQuestions| > 0
                               && |quizQuestions| <= currentQuestionIndex + SURVIVAL_FETCH_THRESHOLD)
    {
      LookupOfDraw(newRawQuestions, pool, askedQuestionIds, mode, order);
      AppendBatch(newRawQuestions, optionOrders);
    }

    /** One second of the countdown. Nothing happens once the question is
        answered, while loading, or without questions; at zero the blank
        answer is submitted; otherwise one second is taken off. */
    method Tick() returns (next: Scheduled)
      requires Valid()
      modifies this`timeLeft, this`isAnswered, this`selectedAnswer, this`userAnswers,
               this`score, this`streak, this`highestStreak, this`strikes
      ensures Valid()
      ensures old(isAnswered || isLoading || |quizQuestions| == 0) ==>
        next == NothingScheduled && unchanged(this)
      ensures !old(isAnswered || isLoading || |quizQuestions| == 0) && old(timeLeft) <= 0 ==>
        && isAnswered && selectedAnswer == Some("")
        && userAnswers == old(userAnswers) + [None]
        && Counters() == AfterAnswer(old(Counters()), false, old(timeLeft), mode)
        && streak == 0 && timeLeft == old(timeLeft)
        && next == ScheduleAfter(Counters(), false, mode)
      ensures !old(isAnswered || isLoading || |quizQuestions| == 0) && old(timeLeft) > 0 ==>
        && timeLeft == old(timeLeft) - 1 && next == NothingScheduled
        && unchanged(this`isAnswered, this`selectedAnswer, this`userAnswers)
        && Counters() == old(Counters())
    {
      if isAnswered || isLoading || |quizQuestions| == 0 {
        return NothingScheduled;
      }
      if timeLeft <= 0 {
        next := HandleAnswer("");
        return;
      }
      timeLeft := timeLeft - 1;
      next := NothingScheduled;
    }

    /** The screen's check for a missing current question: with questions
        loaded, the index past the last one and no fetch under way, the game
        ends; otherwise nothing changes. */
    method CheckQuestionsLeft()
      requires Valid()
      modifies this`isGameFinished, this`results, this`savedHighScore
      ensures Valid()
      ensures old(!isLoading && |quizQuestions| > 0 && currentQuestionIndex >= |quizQuestions| && !isFetchingMore) ==>
        isGameFinished && results == Some(CurrentResults())
        && savedHighScore == (if score > highScore then Some(score) else old(savedHighScore))
      ensures !old(!isLoading && |quizQuestions| > 0 && currentQuestionIndex >= |quizQuestions| && !isFetchingMore) ==>
        unchanged(this)
    {
      if !isLoading && |quizQuestions| > 0 && currentQuestionIndex >= |quizQuestions| && !isFetchingMore {
        EndGame();
      }
    }
  }
}
