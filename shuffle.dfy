/** `shuffleArray` sorts a copy of its input with a random comparator, so it
    returns SOME rearrangement of the input. Here the random choice is a
    parameter: `order` lists the input positions in their new order. An
    `order` that is not a rearrangement of the positions picks the identity,
    which is itself one of the possible outcomes, so every argument yields a
    permutation and every permutation is reachable. */
module Shuffle {

  /** `order` lists every position below `n` exactly once. */
  predicate IsOrder(order: seq<nat>, n: nat) {
    && |order| == n
    && (forall i :: 0 <= i < n ==> order[i] < n)
    && (forall i, j :: 0 <= i < j < n ==> order[i] != order[j])
    && (forall k :: 0 <= k < n ==> k in order)
  }

  predicate Distinct<T(==)>(s: seq<T>) {
    forall i, j :: 0 <= i < j < |s| ==> s[i] != s[j]
  }

  /** The elements of `s` taken in the positions `order` lists. */
  function Permute<T>(s: seq<T>, order: seq<nat>): (r: seq<T>)
    requires IsOrder(order, |s|)
    ensures |r| == |s|
    ensures forall i :: 0 <= i < |s| ==> r[i] == s[order[i]]
  {
    seq(|s|, i requires 0 <= i < |s| => s[order[i]])
  }

  /** Dropping the position of the last index from an order of `n + 1`
      positions leaves an order of `n` positions. */
  lemma {:induction false} DropLast(order: seq<nat>, n: nat, p: nat)
    requires IsOrder(order, n + 1)
    requires p < n + 1 && order[p] == n
    ensures IsOrder(order[..p] + order[p + 1..], n)
  {
    var rest := order[..p] + order[p + 1..];
    assert forall i :: 0 <= i < n ==> rest[i] == (if i < p then order[i] else order[i + 1]);
    forall i | 0 <= i < n
      ensures rest[i] < n
    {
      if i < p { assert order[i] != order[p]; } else { assert order[i + 1] != order[p]; }
    }
    forall k | 0 <= k < n
      ensures k in rest
    {
      assert k in order;
      var i :| 0 <= i < |order| && order[i] == k;
      if i < p { assert rest[i] == k; } else { assert i != p; assert rest[i - 1] == k; }
    }
  }

  /** Permuting all positions but the one holding the last index is
      permuting the shorter sequence by the shorter order. */
  lemma RemoveLastPosition<T>(s: seq<T>, order: seq<nat>, p: nat)
    requires |s| > 0 && IsOrder(order, |s|)
    requires p < |s| && order[p] == |s| - 1
    requires IsOrder(order[..p] + order[p + 1..], |s| - 1)
    ensures Permute(s[..|s| - 1], order[..p] + order[p + 1..])
            == Permute(s, order)[..p] + Permute(s, order)[p + 1..]
  {
    var n := |s| - 1;
    var rest := order[..p] + order[p + 1..];
    var r := Permute(s, order);
    var r' := Permute(s[..n], rest);
    forall i | 0 <= i < n
      ensures r'[i] == (r[..p] + r[p + 1..])[i]
    {
      if i < p { assert rest[i] == order[i]; } else { assert rest[i] == order[i + 1]; }
    }
  }

  /** Rearranging a sequence keeps its elements and their multiplicities. */
  lemma {:induction false} PermuteKeepsMultiset<T>(s: seq<T>, order: seq<nat>)
    requires IsOrder(order, |s|)
    ensures multiset(Permute(s, order)) == multiset(s)
  {
    if |s| == 0 {
      assert Permute(s, order) == [];
    } else {
      var n := |s| - 1;
      assert n in order;
      var p :| 0 <= p < |order| && order[p] == n;
      var rest := order[..p] + order[p + 1..];
      DropLast(order, n, p);
      PermuteKeepsMultiset(s[..n], rest);
      RemoveLastPosition(s, order, p);
      var r := Permute(s, order);
      ReinsertLast(s, r, p);
    }
  }

  /** If `r` with position `p` removed has the multiset of `s` without its
      last element, and `r[p]` is that last element, `r` has the multiset of `s`. */
  lemma ReinsertLast<T>(s: seq<T>, r: seq<T>, p: nat)
    requires |s| > 0 && |r| == |s| && p < |r| && r[p] == s[|s| - 1]
    requires multiset(r[..p] + r[p + 1..]) == multiset(s[..|s| - 1])
    ensures multiset(r) == multiset(s)
  {
    var n := |s| - 1;
    assert r == r[..p] + [s[n]] + r[p + 1..];
    assert multiset(r) == multiset(r[..p] + r[p + 1..]) + multiset{s[n]};
    assert s == s[..n] + [s[n]];
  }

  /** Rearranging a sequence without repetitions leaves it without repetitions. */
  lemma PermuteKeepsDistinct<T>(s: seq<T>, order: seq<nat>)
    requires IsOrder(order, |s|)
    ensures Distinct(s) ==> Distinct(Permute(s, order))
  {
    var r := Permute(s, order);
    if Distinct(s) {
      forall i, j | 0 <= i < j < |r|
        ensures r[i] != r[j]
      {
        assert order[i] != order[j];
      }
    }
  }

  /** `shuffleArray`: some permutation of `s`, picked by `order`. */
  function ShuffleArray<T(==)>(s: seq<T>, order: seq<nat>): (r: seq<T>)
    ensures |r| == |s|
    ensures multiset(r) == multiset(s)
    ensures Distinct(s) ==> Distinct(r)
  {
    if IsOrder(order, |s|) then
      PermuteKeepsMultiset(s, order);
      PermuteKeepsDistinct(s, order);
      Permute(s, order)
    else
      s
  }

  /** Every permutation of `s` is an outcome of `ShuffleArray`. */
  lemma EveryOrderIsReachable<T>(s: seq<T>, order: seq<nat>)
    requires IsOrder(order, |s|)
    ensures forall i :: 0 <= i < |s| ==> ShuffleArray(s, order)[i] == s[order[i]]
  {
  }

  /** A prefix takes each element of a sequence at most as often as the
      sequence holds it. */
  lemma PrefixIsSubMultiset<T>(s: seq<T>, k: nat)
    requires k <= |s|
    ensures multiset(s[..k]) <= multiset(s)
  {
    assert s == s[..k] + s[k..];
  }
}
