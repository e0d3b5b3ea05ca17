/** A stable sort by an integer rank, as `Array.prototype.sort` performs it
    with a numeric comparator: the specification is insertion sort on
    sequences, and `SortInPlace` carries it out on an array. */
module Sorting {
  import opened Seqs

  /** Ranks never decrease from left to right. */
  predicate SortedBy<T>(s: seq<T>, rank: T -> int) {
    forall i, j :: 0 <= i < j < |s| ==> rank(s[i]) <= rank(s[j])
  }

  /** The test "has rank `k`", one closure per rank so that every filter by
      rank uses the same predicate. */
  function HasRank<T>(rank: T -> int, k: int): T -> bool {
    x => rank(x) == k
  }

  /** The test "ranks above `k`". */
  function RanksAbove<T>(rank: T -> int, k: int): T -> bool {
    y => rank(y) > k
  }

  /** The position of the first element of `s` whose rank exceeds that of
      `x`, or `|s|` when there is none. */
  function FirstAbove<T>(x: T, s: seq<T>, rank: T -> int): (j: nat)
    ensures j <= |s|
    ensures forall m :: 0 <= m < j ==> rank(s[m]) <= rank(x)
    ensures j < |s| ==> rank(s[j]) > rank(x)
    ensures SortedBy(s, rank) ==> forall m :: j <= m < |s| ==> rank(s[m]) > rank(x)
  {
    match FindIndex(s, RanksAbove(rank, rank(x)))
    case None => |s|
    case Some(i) => i
  }

  /** Places `x` after every element whose rank is not greater than its own. */
  function Insert<T>(x: T, s: seq<T>, rank: T -> int): (r: seq<T>)
    ensures |r| == |s| + 1
  {
    if s == [] then [x]
    else if rank(x) < rank(s[0]) then [x] + s
    else [s[0]] + Insert(x, s[1..], rank)
  }

  /** Where `Insert` puts `x`: just before the first element of greater
      rank, all else in order; in a sorted `s` that is after every element
      of no greater rank. */
  lemma {:induction false} InsertPlacement<T>(x: T, s: seq<T>, rank: T -> int)
    ensures var j := FirstAbove(x, s, rank);
            Insert(x, s, rank) == s[..j] + [x] + s[j..]
  {
    if s == [] {
    } else if rank(x) < rank(s[0]) {
      assert s[..0] == [] && s[0..] == s;
    } else {
      var t := s[1..];
      var j := FirstAbove(x, t, rank);
      InsertPlacement(x, t, rank);
      FirstAboveStep(x, s, rank);
      SplitAfterHead(s, j);
    }
  }

  /** Past an element of no greater rank, the position moves one along. */
  lemma FirstAboveStep<T>(x: T, s: seq<T>, rank: T -> int)
    requires s != [] && rank(x) >= rank(s[0])
    ensures FirstAbove(x, s, rank) == FirstAbove(x, s[1..], rank) + 1
  {
  }

  /** Splitting after the head and then at `j` is splitting at `j + 1`. */
  lemma SplitAfterHead<T>(s: seq<T>, j: nat)
    requires j < |s|
    ensures s[..j + 1] == [s[0]] + s[1..][..j] && s[j + 1..] == s[1..][j..]
  {
  }

  /** Inserts the elements one after another, in input order. */
  function InsertionSort<T>(s: seq<T>, rank: T -> int): (r: seq<T>)
    ensures |r| == |s|
  {
    if s == [] then [] else Insert(s[|s| - 1], InsertionSort(s[..|s| - 1], rank), rank)
  }

  lemma {:induction false} InsertSorted<T>(x: T, s: seq<T>, rank: T -> int)
    requires SortedBy(s, rank)
    ensures SortedBy(Insert(x, s, rank), rank)
    ensures forall i :: 0 <= i < |Insert(x, s, rank)| ==>
              rank(Insert(x, s, rank)[i]) == rank(x) || (s != [] && rank(Insert(x, s, rank)[i]) >= rank(s[0]))
  {
    if s != [] && rank(x) >= rank(s[0]) {
      InsertSorted(x, s[1..], rank);
    }
  }

  lemma {:induction false} InsertPermutes<T>(x: T, s: seq<T>, rank: T -> int)
    ensures multiset(Insert(x, s, rank)) == multiset(s) + multiset{x}
  {
    if s != [] && rank(x) >= rank(s[0]) {
      InsertPermutes(x, s[1..], rank);
      assert s == [s[0]] + s[1..];
    }
  }

  /** Among elements of one rank, `x` lands after all those already in `s`. */
  lemma {:induction false} InsertKeepsRankOrder<T>(x: T, s: seq<T>, rank: T -> int, k: int)
    requires SortedBy(s, rank)
    ensures Filter(HasRank(rank, k), Insert(x, s, rank)) ==
            Filter(HasRank(rank, k), s) + Filter(HasRank(rank, k), [x])
  {
    var p := HasRank(rank, k);
    if s == [] {
    } else if rank(x) < rank(s[0]) {
      // no element of s has the rank of x
      if rank(x) == k {
        FilterNone(p, s, rank, k);
      }
      FilterConcat(p, [x], s);
      FilterConcat(p, s, [x]);
      if rank(x) != k {
        assert Filter(p, [x]) == [];
      }
    } else {
      InsertKeepsRankOrder(x, s[1..], rank, k);
      FilterConcat(p, [s[0]], Insert(x, s[1..], rank));
      FilterConcat(p, [s[0]], s[1..]);
      assert [s[0]] + s[1..] == s;
    }
  }

  /** In a sorted sequence whose first rank exceeds `k`, nothing has rank `k`. */
  lemma {:induction false} FilterNone<T>(p: T -> bool, s: seq<T>, rank: T -> int, k: int)
    requires p == HasRank(rank, k)
    requires SortedBy(s, rank) && s != [] && k < rank(s[0])
    ensures Filter(p, s) == []
  {
    if |s| > 1 {
      FilterNone(p, s[1..], rank, k);
    }
  }

  /** Insertion sort orders by rank. */
  lemma {:induction false} InsertionSortSorted<T>(s: seq<T>, rank: T -> int)
    ensures SortedBy(InsertionSort(s, rank), rank)
  {
    if s != [] {
      InsertionSortSorted(s[..|s| - 1], rank);
      InsertSorted(s[|s| - 1], InsertionSort(s[..|s| - 1], rank), rank);
    }
  }

  /** Insertion sort permutes its input. */
  lemma {:induction false} InsertionSortPermutes<T>(s: seq<T>, rank: T -> int)
    ensures multiset(InsertionSort(s, rank)) == multiset(s)
  {
    if s != [] {
      var init := s[..|s| - 1];
      InsertionSortPermutes(init, rank);
      InsertPermutes(s[|s| - 1], InsertionSort(init, rank), rank);
      assert s == init + [s[|s| - 1]];
    }
  }

  /** Insertion sort is stable: the elements of any one rank come out in
      their input order. */
  lemma {:induction false} InsertionSortStable<T>(s: seq<T>, rank: T -> int, k: int)
    ensures Filter(HasRank(rank, k), InsertionSort(s, rank)) == Filter(HasRank(rank, k), s)
  {
    if s != [] {
      var init := s[..|s| - 1];
      var x := s[|s| - 1];
      InsertionSortStable(init, rank, k);
      InsertionSortSorted(init, rank);
      InsertKeepsRankOrder(x, InsertionSort(init, rank), rank, k);
      assert s == init + [x];
      FilterConcat(HasRank(rank, k), init, [x]);
    }
  }

  /** Where `Insert` puts `x` in a sorted sequence: at the first position
      whose rank exceeds that of `x`. */
  lemma {:induction false} InsertAt<T>(x: T, s: seq<T>, rank: T -> int, j: nat)
    requires j <= |s|
    requires forall m :: 0 <= m < j ==> rank(s[m]) <= rank(x)
    requires forall m :: j <= m < |s| ==> rank(s[m]) > rank(x)
    ensures Insert(x, s, rank) == s[..j] + [x] + s[j..]
  {
    if s != [] && j > 0 {
      InsertAt(x, s[1..], rank, j - 1);
      assert s[..j] == [s[0]] + s[1..][..j - 1];
      assert s[j..] == s[1..][j - 1..];
    } else if s != [] {
      assert s[j..] == s;
    }
  }

  /** The array picture after one insertion step is `Insert`'s result:
      the elements before position `j` unchanged, `x` at `j`, the rest
      shifted one place right, and `x` no smaller than what precedes it. */
  lemma ShiftedIsInsert<T>(b: seq<T>, x: T, s: seq<T>, rank: T -> int, j: nat)
    requires SortedBy(s, rank) && j <= |s| && |b| == |s| + 1
    requires forall m :: 0 <= m < j ==> b[m] == s[m]
    requires b[j] == x
    requires forall m :: j < m < |b| ==> b[m] == s[m - 1]
    requires forall m :: j <= m < |s| ==> rank(s[m]) > rank(x)
    requires j > 0 ==> rank(s[j - 1]) <= rank(x)
    ensures b == Insert(x, s, rank)
  {
    InsertAt(x, s, rank, j);
    assert b == s[..j] + [x] + s[j..];
  }

  /** Sorts `a` in place by rank, stably: each element in turn is shifted
      left past the elements of greater rank before it. */
  method SortInPlace<T>(a: array<T>, rank: T -> int)
    modifies a
    ensures a[..] == InsertionSort(old(a[..]), rank)
  {
    ghost var input := a[..];
    var i := 0;
    while i < a.Length
      invariant 0 <= i <= a.Length
      invariant a[..i] == InsertionSort(input[..i], rank)
      invariant a[i..] == input[i..]
    {
      InsertionSortSorted(input[..i], rank);
      InsertNext(a, i, rank);
      assert input[..i + 1] == input[..i] + [input[i]];
      assert input[..i + 1][..i] == input[..i];
      i := i + 1;
    }
    assert input[..a.Length] == input;
  }

  /** One step of the sort: with `a[..i]` sorted, moves `a[i]` left past the
      elements of greater rank so that `a[..i + 1]` is sorted. */
  method InsertNext<T>(a: array<T>, i: nat, rank: T -> int)
    requires i < a.Length && SortedBy(a[..i], rank)
    modifies a
    ensures a[..i + 1] == Insert(old(a[i]), old(a[..i]), rank)
    ensures a[i + 1..] == old(a[i + 1..])
  {
    ghost var sorted := a[..i];
    var x := a[i];
    var j := i;
    while j > 0 && rank(a[j - 1]) > rank(x)
      invariant 0 <= j <= i
      invariant forall m :: 0 <= m < j ==> a[m] == sorted[m]
      invariant forall m :: j < m <= i ==> a[m] == sorted[m - 1]
      invariant forall m :: i < m < a.Length ==> a[m] == old(a[m])
      invariant forall m :: j <= m < i ==> rank(sorted[m]) > rank(x)
    {
      a[j] := a[j - 1];
      j := j - 1;
    }
    a[j] := x;
    ShiftedIsInsert(a[..i + 1], x, sorted, rank, j);
  }
}
