/** Choosing the questions of a game from the question bank's records, and
    turning a record into a question with shuffled options. The question bank
    query itself is not modelled: its answer is the `pool` parameter. */
module Selection {
  import opened QuizTypes
  import opened Shuffle

  /** Questions drawn per fetch in a fixed game. */
  const FIXED_QUESTION_LIMIT: nat := 10
  /** The most ids the question bank accepts in one `in` lookup; the draw
      size of every other mode. */
  const FIRESTORE_IN_LIMIT: nat := 30

  // ---------------------------------------------------------------------
  // Newer quiz screen: draw unseen questions

  /** The records whose id is not excluded, in pool order. */
  function Available(pool: seq<RawQuestion>, excludeIds: set<string>): (r: seq<RawQuestion>)
    ensures forall i :: 0 <= i < |r| ==> r[i] in pool && r[i].id !in excludeIds
    ensures forall i :: 0 <= i < |pool| && pool[i].id !in excludeIds ==> pool[i] in r
    ensures |r| <= |pool|
    ensures DistinctIds(pool) ==> DistinctIds(r)
  {
    if |pool| == 0 then []
    else
      var rest := Available(pool[1..], excludeIds);
      assert forall q :: q in pool[1..] ==> q in pool;
      if pool[0].id in excludeIds then rest
      else
        assert DistinctIds(pool) ==> forall q :: q in rest ==> q.id != pool[0].id;
        [pool[0]] + rest
  }

  /** The draw size: 10 in a fixed game, 30 otherwise. */
  function QuestionLimit(mode: Mode): (n: nat)
    ensures n == (if mode == Fixed then 10 else 30)
  {
    if mode == Fixed then FIXED_QUESTION_LIMIT else FIRESTORE_IN_LIMIT
  }

  /** Shuffling records keeps their ids distinct. */
  lemma ShuffleKeepsDistinctIds(s: seq<RawQuestion>, order: seq<nat>)
    ensures DistinctIds(s) ==> DistinctIds(ShuffleArray(s, order))
  {
    if DistinctIds(s) && IsOrder(order, |s|) {
      var r := ShuffleArray(s, order);
      forall i, j | 0 <= i < j < |r|
        ensures r[i].id != r[j].id
      {
        assert order[i] != order[j];
      }
    }
  }

  /** Nothing is available exactly when every record's id is excluded. */
  lemma AvailableIsEmpty(pool: seq<RawQuestion>, excludeIds: set<string>)
    ensures Available(pool, excludeIds) == [] <==> forall i :: 0 <= i < |pool| ==> pool[i].id in excludeIds
  {
    var r := Available(pool, excludeIds);
    if r != [] {
      assert r[0] in pool;
    }
  }

  /** A prefix of a shuffle of records drawn from `pool` without excluded
      ids is again drawn from `pool` without excluded ids, and keeps the
      ids distinct when they were. */
  lemma ShuffledPrefix(s: seq<RawQuestion>, order: seq<nat>, n: nat, pool: seq<RawQuestion>, excludeIds: set<string>)
    requires n <= |s|
    requires forall i :: 0 <= i < |s| ==> s[i] in pool && s[i].id !in excludeIds
    ensures var p := ShuffleArray(s, order)[..n];
      && (forall i :: 0 <= i < |p| ==> p[i] in pool && p[i].id !in excludeIds)
      && (DistinctIds(s) ==> DistinctIds(p))
  {
    var shuffled := ShuffleArray(s, order);
    forall i | 0 <= i < n
      ensures shuffled[i] in pool && shuffled[i].id !in excludeIds
    {
      assert shuffled[i] in multiset(s);
      var j :| 0 <= j < |s| && s[j] == shuffled[i];
    }
    ShuffleKeepsDistinctIds(s, order);
  }

  /** The pure part of the newer screen's question fetch: drop the excluded
      ids, return nothing when nothing is left, otherwise shuffle what is
      left and keep the first `min(limit, available)` records. */
  function SelectQuestions(pool: seq<RawQuestion>, excludeIds: set<string>, mode: Mode, order: seq<nat>)
    : (r: seq<RawQuestion>)
    ensures forall i :: 0 <= i < |r| ==> r[i] in pool && r[i].id !in excludeIds
    ensures r == [] <==> forall i :: 0 <= i < |pool| ==> pool[i].id in excludeIds
    ensures DistinctIds(pool) ==> DistinctIds(r)
  {
    var availableIds := Available(pool, excludeIds);
    AvailableIsEmpty(pool, excludeIds);
    if |availableIds| == 0 then
      []
    else
      var numToFetch := Min(QuestionLimit(mode), |availableIds|);
      ShuffledPrefix(availableIds, order, numToFetch, pool, excludeIds);
      ShuffleArray(availableIds, order)[..numToFetch]
  }

  /** The draw holds as many records as the limit allows, or every
      available record when fewer are available. */
  lemma SelectionSize(pool: seq<RawQuestion>, excludeIds: set<string>, mode: Mode, order: seq<nat>)
    ensures |SelectQuestions(pool, excludeIds, mode, order)| == Min(QuestionLimit(mode), |Available(pool, excludeIds)|)
  {
  }

  /** The draw takes each available record at most as often as it is
      available: a selection without repetition. */
  lemma SelectionIsSubMultiset(pool: seq<RawQuestion>, excludeIds: set<string>, mode: Mode, order: seq<nat>)
    ensures multiset(SelectQuestions(pool, excludeIds, mode, order)) <= multiset(Available(pool, excludeIds))
  {
    var availableIds := Available(pool, excludeIds);
    if |availableIds| > 0 {
      PrefixIsSubMultiset(ShuffleArray(availableIds, order), Min(QuestionLimit(mode), |availableIds|));
    }
  }

  /** The lookup by id that follows the draw returns the drawn records, in
      an order of the question bank's choosing. Every record it returns is
      then a pool record whose id is not excluded, there are at most as many
      as the draw size, and it returns nothing exactly when every pool id is
      excluded. */
  lemma LookupOfDraw(fetched: seq<RawQuestion>, pool: seq<RawQuestion>, excludeIds: set<string>,
                     mode: Mode, order: seq<nat>)
    requires multiset(fetched) == multiset(SelectQuestions(pool, excludeIds, mode, order))
    ensures forall i :: 0 <= i < |fetched| ==> fetched[i] in pool && fetched[i].id !in excludeIds
    ensures |fetched| <= QuestionLimit(mode)
    ensures |fetched| == 0 <==> forall i :: 0 <= i < |pool| ==> pool[i].id in excludeIds
  {
    var draw := SelectQuestions(pool, excludeIds, mode, order);
    forall i | 0 <= i < |fetched|
      ensures fetched[i] in pool && fetched[i].id !in excludeIds
    {
      assert fetched[i] in multiset(draw);
      var j :| 0 <= j < |draw| && draw[j] == fetched[i];
    }
    assert |fetched| == |multiset(fetched)| == |multiset(draw)| == |draw|;
    SelectionSize(pool, excludeIds, mode, order);
  }

  // ---------------------------------------------------------------------
  // Older quiz screen: shuffle the whole pool, then keep ten

  /** The older screen's selection: a shuffle of the pool, cut to ten
      records in a fixed game and kept whole otherwise. */
  function LegacySelect(pool: seq<RawQuestion>, mode: Mode, order: seq<nat>): (r: seq<RawQuestion>)
    ensures forall q :: q in r ==> q in pool
    ensures |r| == (if mode == Fixed then Min(10, |pool|) else |pool|)
    ensures DistinctIds(pool) ==> DistinctIds(r)
  {
    var selectedQuestions := ShuffleArray(pool, order);
    ShuffleKeepsDistinctIds(pool, order);
    if mode == Fixed then
      var n := Min(FIXED_QUESTION_LIMIT, |selectedQuestions|);
      PrefixIsSubMultiset(selectedQuestions, n);
      assert forall q :: q in selectedQuestions[..n] ==> q in multiset(selectedQuestions);
      selectedQuestions[..n]
    else
      assert forall q :: q in selectedQuestions ==> q in multiset(selectedQuestions);
      selectedQuestions
  }

  /** The older selection draws from the pool without repetition, and
      outside a fixed game it keeps the whole pool. */
  lemma LegacySelectionIsSubMultiset(pool: seq<RawQuestion>, mode: Mode, order: seq<nat>)
    ensures multiset(LegacySelect(pool, mode, order)) <= multiset(pool)
    ensures mode != Fixed ==> multiset(LegacySelect(pool, mode, order)) == multiset(pool)
  {
    if mode == Fixed {
      var shuffled := ShuffleArray(pool, order);
      PrefixIsSubMultiset(shuffled, Min(FIXED_QUESTION_LIMIT, |shuffled|));
    }
  }

  // ---------------------------------------------------------------------
  // Options of a question

  /** `filter(Boolean)` on strings: drops the empty ones, keeps the order. */
  function KeepNonEmpty(xs: seq<string>): (r: seq<string>)
    ensures "" !in r
    ensures forall x :: x != "" ==> multiset(r)[x] == multiset(xs)[x]
    ensures |r| <= |xs|
  {
    if |xs| == 0 then []
    else
      assert xs == [xs[0]] + xs[1..];
      (if xs[0] == "" then [] else [xs[0]]) + KeepNonEmpty(xs[1..])
  }

  /** The non-empty values among the correct answer and the two wrong ones. */
  function OptionCandidates(raw: RawQuestion): seq<string> {
    KeepNonEmpty([raw.correct, raw.false1, raw.false2])
  }

  /** A question's options: the candidates in some shuffled order. */
  function BuildOptions(raw: RawQuestion, order: seq<nat>): (r: seq<string>)
    ensures multiset(r) == multiset(OptionCandidates(raw))
  {
    ShuffleArray(OptionCandidates(raw), order)
  }

  /** The options are at most three, none of them blank, each one the
      correct answer or a wrong one, and the correct answer is among them
      whenever it is not blank. */
  lemma OptionsAreTheAnswers(raw: RawQuestion, order: seq<nat>)
    ensures var r := BuildOptions(raw, order);
      && "" !in r && |r| <= 3
      && (raw.correct != "" ==> raw.correct in r)
      && (forall i :: 0 <= i < |r| ==> r[i] == raw.correct || r[i] == raw.false1 || r[i] == raw.false2)
  {
    var candidates := OptionCandidates(raw);
    var r := BuildOptions(raw, order);
    assert |r| == |multiset(r)| == |multiset(candidates)| == |candidates|;
    assert "" !in multiset(candidates);
    if raw.correct != "" {
      assert multiset([raw.correct, raw.false1, raw.false2])[raw.correct] >= 1;
      assert raw.correct in multiset(r);
    }
    forall i | 0 <= i < |r|
      ensures r[i] == raw.correct || r[i] == raw.false1 || r[i] == raw.false2
    {
      assert r[i] in multiset(candidates);
      assert multiset([raw.correct, raw.false1, raw.false2])[r[i]] >= 1;
    }
  }

  /** The shuffle order for the `i`-th question; a missing one picks the identity. */
  function OrderAt(orders: seq<seq<nat>>, i: nat): seq<nat> {
    if i < |orders| then orders[i] else []
  }

  /** The newer screen's question record built from a bank record. */
  function FormatQuestion(raw: RawQuestion, order: seq<nat>): (q: Question)
    ensures q.id == raw.id && q.questionText == raw.text
    ensures q.correctAnswer == raw.correct && q.category == raw.category
    ensures multiset(q.options) == multiset(OptionCandidates(raw))
    ensures q.correctAnswer != "" ==> q.correctAnswer in q.options
  {
    OptionsAreTheAnswers(raw, order);
    Question(raw.id, raw.text, BuildOptions(raw, order), raw.correct, raw.category)
  }

  /** Formatting a batch of records, one shuffle order per record. */
  function FormatAll(raws: seq<RawQuestion>, orders: seq<seq<nat>>): (r: seq<Question>)
    ensures |r| == |raws|
    ensures forall i :: 0 <= i < |raws| ==>
      && r[i].id == raws[i].id && r[i].questionText == raws[i].text
      && r[i].correctAnswer == raws[i].correct && r[i].category == raws[i].category
      && multiset(r[i].options) == multiset(OptionCandidates(raws[i]))
      && (r[i].correctAnswer != "" ==> r[i].correctAnswer in r[i].options)
  {
    seq(|raws|, i requires 0 <= i < |raws| => FormatQuestion(raws[i], OrderAt(orders, i)))
  }

  /** The older screen's question record: text, options and correct answer only. */
  function LegacyFormatQuestion(raw: RawQuestion, order: seq<nat>): (q: LegacyQuestion)
    ensures q.questionText == raw.text && q.correctAnswer == raw.correct
    ensures multiset(q.options) == multiset(OptionCandidates(raw))
    ensures q.correctAnswer != "" ==> q.correctAnswer in q.options
  {
    OptionsAreTheAnswers(raw, order);
    LegacyQuestion(raw.text, BuildOptions(raw, order), raw.correct)
  }

  /** Formatting a batch of records for the older screen, one shuffle order per record. */
  function LegacyFormatAll(raws: seq<RawQuestion>, orders: seq<seq<nat>>): (r: seq<LegacyQuestion>)
    ensures |r| == |raws|
    ensures forall i :: 0 <= i < |raws| ==>
      && r[i].questionText == raws[i].text && r[i].correctAnswer == raws[i].correct
      && multiset(r[i].options) == multiset(OptionCandidates(raws[i]))
      && (r[i].correctAnswer != "" ==> r[i].correctAnswer in r[i].options)
  {
    seq(|raws|, i requires 0 <= i < |raws| => LegacyFormatQuestion(raws[i], OrderAt(orders, i)))
  }

  /** The set of ids of a batch of records. */
  function RawIds(raws: seq<RawQuestion>): (ids: set<string>)
    ensures forall i :: 0 <= i < |raws| ==> raws[i].id in ids
  {
    if |raws| == 0 then {} else {raws[0].id} + RawIds(raws[1..])
  }

  /** The ids of a batch are exactly the ids its records carry. */
  lemma {:induction false} RawIdsAreTheRecordIds(raws: seq<RawQuestion>, id: string)
    ensures id in RawIds(raws) <==> exists i :: 0 <= i < |raws| && raws[i].id == id
  {
    if |raws| > 0 {
      RawIdsAreTheRecordIds(raws[1..], id);
      if id in RawIds(raws[1..]) {
        var i :| 0 <= i < |raws[1..]| && raws[1..][i].id == id;
        assert raws[i + 1].id == id;
      }
      if id != raws[0].id && (exists i :: 0 <= i < |raws| && raws[i].id == id) {
        var i :| 0 <= i < |raws| && raws[i].id == id;
        assert raws[1..][i - 1].id == id;
      }
    }
  }

  /** Every formatted question carries the id of its record, so it is
      among the records' ids. */
  lemma FormattedIds(raws: seq<RawQuestion>, orders: seq<seq<nat>>)
    ensures var formatted := FormatAll(raws, orders);
      forall i :: 0 <= i < |formatted| ==> formatted[i].id == raws[i].id && formatted[i].id in RawIds(raws)
  {
  }
}
