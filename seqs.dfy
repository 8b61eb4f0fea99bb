/**
  Sequence helpers shared by the model: JavaScript's `Array.prototype.filter`
  as a function, the order-preserving subsequence it selects, and distinctness.
 */
module Seqs {

  /** No element occurs twice. */
  ghost predicate Distinct<T>(s: seq<T>) {
    forall i, j :: 0 <= i < j < |s| ==> s[i] != s[j]
  }

  /** The elements of `s` that satisfy `p`, in their original order (`s.filter(p)`). */
  function Filter<T>(s: seq<T>, p: T -> bool): (r: seq<T>)
    ensures |r| <= |s|
    ensures forall x :: x in r ==> x in s && p(x)
    ensures forall x :: x in s && p(x) ==> x in r
  {
    if s == [] then []
    else if p(s[0]) then [s[0]] + Filter(s[1..], p)
    else Filter(s[1..], p)
  }

  /** `Filter` keeps everything exactly when every element satisfies `p`. */
  lemma {:induction false} FilterKeepsAll<T>(s: seq<T>, p: T -> bool)
    ensures |Filter(s, p)| == |s| <==> forall i :: 0 <= i < |s| ==> p(s[i])
    ensures (forall i :: 0 <= i < |s| ==> p(s[i])) ==> Filter(s, p) == s
  {
    if s != [] {
      FilterKeepsAll(s[1..], p);
      if !p(s[0]) {
        assert |Filter(s, p)| < |s|;
      } else {
        assert forall i :: 1 <= i < |s| ==> s[i] == s[1..][i - 1];
      }
    }
  }

  /** `Filter` distributes over concatenation: a left-to-right pass may be split anywhere. */
  lemma {:induction false} FilterAppend<T>(a: seq<T>, b: seq<T>, p: T -> bool)
    ensures Filter(a + b, p) == Filter(a, p) + Filter(b, p)
  {
    if a == [] {
      assert a + b == b;
    } else {
      assert (a + b)[0] == a[0];
      assert (a + b)[1..] == a[1..] + b;
      FilterAppend(a[1..], b, p);
    }
  }

  /** Filtering a sequence with no satisfying element yields the empty sequence. */
  lemma FilterNone<T>(s: seq<T>, p: T -> bool)
    requires forall x :: x in s ==> !p(x)
    ensures Filter(s, p) == []
  {
    if Filter(s, p) != [] {
      assert Filter(s, p)[0] in Filter(s, p);
    }
  }

  /** The two halves of a partition by `p` together hold every element of `s`, as often as `s` does. */
  lemma {:induction false} FilterPartition<T>(s: seq<T>, p: T -> bool, q: T -> bool)
    requires forall x :: q(x) == !p(x)
    ensures multiset(Filter(s, p)) + multiset(Filter(s, q)) == multiset(s)
  {
    if s != [] {
      FilterPartition(s[1..], p, q);
      assert s == [s[0]] + s[1..];
    }
  }

  /** Filtering keeps a sequence free of duplicates. */
  lemma {:induction false} FilterDistinct<T>(s: seq<T>, p: T -> bool)
    requires Distinct(s)
    ensures Distinct(Filter(s, p))
  {
    if s != [] {
      FilterDistinct(s[1..], p);
      if p(s[0]) {
        assert s[0] !in s[1..];
        assert s[0] !in Filter(s[1..], p);
      }
    }
  }

  /** Two duplicate-free sequences with no element in common concatenate to a duplicate-free one. */
  lemma DistinctConcat<T>(a: seq<T>, b: seq<T>)
    requires Distinct(a) && Distinct(b)
    requires forall x :: x in a ==> x !in b
    ensures Distinct(a + b)
  {
    forall i, j | 0 <= i < j < |a + b|
      ensures (a + b)[i] != (a + b)[j]
    {
      if j < |a| {
        assert (a + b)[i] == a[i] && (a + b)[j] == a[j];
      } else if i >= |a| {
        assert (a + b)[i] == b[i - |a|] && (a + b)[j] == b[j - |a|];
      } else {
        assert (a + b)[i] == a[i] && (a + b)[j] == b[j - |a|];
        assert a[i] in a && b[j - |a|] in b;
      }
    }
  }

  /** `t` is the subsequence of `s` at the strictly increasing positions `idx`. */
  ghost predicate SelectedAt<T>(t: seq<T>, s: seq<T>, idx: seq<nat>) {
    && |idx| == |t|
    && (forall m :: 0 <= m < |idx| ==> idx[m] < |s| && t[m] == s[idx[m]])
    && (forall m, n :: 0 <= m < n < |idx| ==> idx[m] < idx[n])
  }

  /** Every position moved one place to the right. */
  function Shift(idx: seq<nat>): (r: seq<nat>)
    ensures |r| == |idx| && forall m :: 0 <= m < |idx| ==> r[m] == idx[m] + 1
  {
    seq(|idx|, m requires 0 <= m < |idx| => idx[m] + 1)
  }

  /** The positions of the elements of `s` that satisfy `p`, in ascending order. */
  function KeptPositions<T>(s: seq<T>, p: T -> bool): (idx: seq<nat>)
  {
    if s == [] then []
    else if p(s[0]) then [0] + Shift(KeptPositions(s[1..], p))
    else Shift(KeptPositions(s[1..], p))
  }

  /** A selection from the tail of `s` is a selection from `s` once shifted, with or without `s[0]` in front. */
  lemma SelectedAtCons<T>(t: seq<T>, s: seq<T>, idx: seq<nat>, keepHead: bool)
    requires s != [] && SelectedAt(t, s[1..], idx)
    ensures SelectedAt(if keepHead then [s[0]] + t else t, s,
                       if keepHead then [0] + Shift(idx) else Shift(idx))
  {
    var sh := Shift(idx);
    assert SelectedAt(t, s, sh);
    if keepHead {
      var t', idx' := [s[0]] + t, [0] + sh;
      forall m | 0 <= m < |idx'|
        ensures idx'[m] < |s| && t'[m] == s[idx'[m]]
      {
        if m > 0 { assert t'[m] == t[m - 1] && idx'[m] == sh[m - 1]; }
      }
    }
  }

  /** A position is kept exactly when its element satisfies `p`. */
  lemma {:induction false} KeptPositionsMembers<T>(s: seq<T>, p: T -> bool)
    ensures forall i :: i in KeptPositions(s, p) <==> 0 <= i < |s| && p(s[i])
  {
    if s != [] {
      var tail := s[1..];
      KeptPositionsMembers(tail, p);
      var sh := Shift(KeptPositions(tail, p));
      forall i
        ensures i in sh <==> 1 <= i < |s| && p(s[i])
      {
        if i in sh {
          var m :| 0 <= m < |sh| && sh[m] == i;
          assert KeptPositions(tail, p)[m] == i - 1;
          assert s[i] == tail[i - 1];
        }
        if 1 <= i < |s| && p(s[i]) {
          assert s[i] == tail[i - 1];
          assert i - 1 in KeptPositions(tail, p);
          var m :| 0 <= m < |sh| && KeptPositions(tail, p)[m] == i - 1;
          assert sh[m] == i;
        }
      }
    }
  }

  /**
    `Filter(s, p)` is exactly the order-preserving subsequence of `s` made of
    the positions whose element satisfies `p`: every kept element sits at one
    of those positions, in increasing order, and a position is among them
    exactly when its element satisfies `p`.
   */
  lemma {:induction false} FilterSelects<T>(s: seq<T>, p: T -> bool)
    ensures SelectedAt(Filter(s, p), s, KeptPositions(s, p))
    ensures forall i :: 0 <= i < |s| ==> (p(s[i]) <==> i in KeptPositions(s, p))
  {
    KeptPositionsMembers(s, p);
    if s != [] {
      FilterSelects(s[1..], p);
      SelectedAtCons(Filter(s[1..], p), s, KeptPositions(s[1..], p), p(s[0]));
    }
  }
}

module Sorting {
  import opened Seqs

  /** Non-decreasing under `key`. */
  ghost predicate AscendingBy<T>(s: seq<T>, key: T -> nat) {
    forall i, j :: 0 <= i < j < |s| ==> key(s[i]) <= key(s[j])
  }

  /** Inserts `k` into `s`, which is ascending under `key`, before the first element not below it. */
  function InsertBy<T>(k: T, s: seq<T>, key: T -> nat): (r: seq<T>)
    ensures multiset(r) == multiset(s) + multiset{k}
  {
    if s == [] then [k]
    else if key(k) <= key(s[0]) then [k] + s
    else
      assert s == [s[0]] + s[1..];
      [s[0]] + InsertBy(k, s[1..], key)
  }

  lemma {:induction false} InsertByAscending<T>(k: T, s: seq<T>, key: T -> nat)
    requires AscendingBy(s, key)
    ensures AscendingBy(InsertBy(k, s, key), key)
  {
    if s != [] && key(k) > key(s[0]) {
      InsertByAscending(k, s[1..], key);
      var rest := InsertBy(k, s[1..], key);
      forall x | x in rest ensures key(s[0]) <= key(x) {
        assert x in multiset(rest);
        if x != k { assert x in s[1..]; }
      }
    }
  }

  lemma {:induction false} InsertByDistinct<T>(k: T, s: seq<T>, key: T -> nat)
    requires Distinct(s) && k !in s
    ensures Distinct(InsertBy(k, s, key))
  {
    if s != [] && key(k) > key(s[0]) {
      InsertByDistinct(k, s[1..], key);
      var rest := InsertBy(k, s[1..], key);
      assert s[0] !in s[1..];
      assert s[0] !in multiset(rest);
    }
  }

  /** Insertion sort by `key`. */
  function SortBy<T>(s: seq<T>, key: T -> nat): (r: seq<T>)
    ensures multiset(r) == multiset(s)
  {
    if s == [] then []
    else
      assert s == [s[0]] + s[1..];
      InsertBy(s[0], SortBy(s[1..], key), key)
  }

  /** The sort yields an ascending rearrangement, free of duplicates when the input was. */
  lemma {:induction false} SortByFacts<T>(s: seq<T>, key: T -> nat)
    ensures AscendingBy(SortBy(s, key), key)
    ensures Distinct(s) ==> Distinct(SortBy(s, key))
  {
    if s != [] {
      SortByFacts(s[1..], key);
      var rest := SortBy(s[1..], key);
      InsertByAscending(s[0], rest, key);
      if Distinct(s) {
        assert s[0] !in s[1..];
        assert s[0] !in multiset(rest);
        InsertByDistinct(s[0], rest, key);
      }
    }
  }
}
