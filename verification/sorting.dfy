/** The stable comparison sort both views use (`Array.prototype.sort` with a
    comparator), over an integer key that may be NaN. */
module Sorting {

  /** A sort key: a number, or NaN. A comparator that subtracts keys returns
      NaN for a NaN key, which `sort` reads as "equal" to everything; the model
      orders NaN after every number instead (see README). */
  datatype Rank = Num(n: int) | NaN

  /** `a` may stand before `b`. */
  predicate RankLe(a: Rank, b: Rank) {
    match a
    case NaN => b.NaN?
    case Num(x) => b.NaN? || x <= b.n
  }

  /** Every element's rank is at most the rank of every later element. */
  ghost predicate SortedBy<T>(s: seq<T>, rank: T -> Rank) {
    forall i, j :: 0 <= i < j < |s| ==> RankLe(rank(s[i]), rank(s[j]))
  }

  /** Inserts `x` before the first element whose rank is not below its own. */
  function Insert<T>(x: T, s: seq<T>, rank: T -> Rank): (r: seq<T>)
    ensures multiset(r) == multiset(s) + multiset{x}
    ensures forall k :: 0 <= k < |r| ==> r[k] == x || r[k] in s
  {
    if s == [] then [x]
    else if RankLe(rank(x), rank(s[0])) then [x] + s
    else
      var r := [s[0]] + Insert(x, s[1..], rank);
      assert s == [s[0]] + s[1..];
      r
  }

  /** Inserting into a sorted list keeps it sorted. */
  lemma {:induction false} InsertSorted<T>(x: T, s: seq<T>, rank: T -> Rank)
    requires SortedBy(s, rank)
    ensures SortedBy(Insert(x, s, rank), rank)
  {
    if s != [] && !RankLe(rank(x), rank(s[0])) {
      var tail := Insert(x, s[1..], rank);
      InsertSorted(x, s[1..], rank);
      forall k | 0 <= k < |tail|
        ensures RankLe(rank(s[0]), rank(tail[k]))
      {
        if tail[k] != x {
          var j :| 0 <= j < |s[1..]| && s[1..][j] == tail[k];
          assert s[j + 1] == tail[k];
        }
      }
      assert Insert(x, s, rank) == [s[0]] + tail;
    }
  }

  /** Insertion sort: the input's elements, each once, in non-decreasing rank. */
  function SortBy<T>(s: seq<T>, rank: T -> Rank): (r: seq<T>)
    ensures multiset(r) == multiset(s)
    ensures |r| == |s|
    ensures forall k :: 0 <= k < |r| ==> r[k] in s
    ensures SortedBy(r, rank)
  {
    if s == [] then []
    else
      assert s == [s[0]] + s[1..];
      var sortedTail := SortBy(s[1..], rank);
      InsertSorted(s[0], sortedTail, rank);
      Insert(s[0], sortedTail, rank)
  }

  /** No two elements share a rank. */
  ghost predicate DistinctRanks<T>(s: seq<T>, rank: T -> Rank) {
    forall i, j :: 0 <= i < j < |s| ==> rank(s[i]) != rank(s[j])
  }

  /** Inserting an element of a new rank keeps the ranks distinct. */
  lemma {:induction false} InsertKeepsDistinct<T>(x: T, s: seq<T>, rank: T -> Rank)
    requires DistinctRanks(s, rank)
    requires forall k :: 0 <= k < |s| ==> rank(s[k]) != rank(x)
    ensures DistinctRanks(Insert(x, s, rank), rank)
  {
    if s != [] && !RankLe(rank(x), rank(s[0])) {
      var tail := Insert(x, s[1..], rank);
      InsertKeepsDistinct(x, s[1..], rank);
      forall k | 0 <= k < |tail|
        ensures rank(tail[k]) != rank(s[0])
      {
        if tail[k] != x {
          var j :| 0 <= j < |s[1..]| && s[1..][j] == tail[k];
          assert s[j + 1] == tail[k];
        }
      }
      assert Insert(x, s, rank) == [s[0]] + tail;
    }
  }

  /** Sorting keeps the ranks distinct: a sorted list of distinct ranks is
      strictly increasing. */
  lemma {:induction false} SortByKeepsDistinct<T>(s: seq<T>, rank: T -> Rank)
    requires DistinctRanks(s, rank)
    ensures DistinctRanks(SortBy(s, rank), rank)
  {
    if s != [] {
      var sortedTail := SortBy(s[1..], rank);
      SortByKeepsDistinct(s[1..], rank);
      forall k | 0 <= k < |sortedTail|
        ensures rank(sortedTail[k]) != rank(s[0])
      {
        var j :| 0 <= j < |s[1..]| && s[1..][j] == sortedTail[k];
        assert s[j + 1] == sortedTail[k];
      }
      InsertKeepsDistinct(s[0], sortedTail, rank);
    }
  }

  /** In a sorted list with distinct ranks, an earlier element's rank is strictly below a later one's. */
  lemma StrictPair<T>(s: seq<T>, rank: T -> Rank, i: nat, j: nat)
    requires SortedBy(s, rank) && DistinctRanks(s, rank) && i < j < |s|
    ensures RankLe(rank(s[i]), rank(s[j])) && rank(s[i]) != rank(s[j])
  {
  }

  /** Two lists with the same elements and the same first element have the
      same remaining elements. */
  lemma TailMultiset<T>(x: seq<T>, y: seq<T>)
    requires x != [] && y != [] && x[0] == y[0] && multiset(x) == multiset(y)
    ensures multiset(x[1..]) == multiset(y[1..])
  {
    assert x == [x[0]] + x[1..];
    assert y == [y[0]] + y[1..];
    assert multiset(x) == multiset{x[0]} + multiset(x[1..]);
    assert multiset(y) == multiset{x[0]} + multiset(y[1..]);
    assert multiset(x[1..]) == multiset(x) - multiset{x[0]};
  }

  /** The first element of a sorted list with distinct ranks is the first
      element of every sorted arrangement of the same elements. */
  lemma SameHead<T>(x: seq<T>, y: seq<T>, rank: T -> Rank)
    requires x != [] && SortedBy(x, rank) && DistinctRanks(x, rank)
    requires SortedBy(y, rank) && multiset(x) == multiset(y)
    ensures y != [] && y[0] == x[0]
  {
    assert x[0] in multiset(y);
    var j :| 0 <= j < |y| && y[j] == x[0];
    assert y[0] in multiset(x);
    var i :| 0 <= i < |x| && x[i] == y[0];
    assert RankLe(rank(y[0]), rank(y[j]));
    assert RankLe(rank(x[0]), rank(x[i]));
  }

  /** A sorted list whose ranks are distinct is the only sorted arrangement of
      its elements: `sort` gives the same result whatever order its input
      lists them in. */
  lemma {:induction false} SortedUnique<T>(x: seq<T>, y: seq<T>, rank: T -> Rank)
    requires SortedBy(x, rank) && DistinctRanks(x, rank)
    requires SortedBy(y, rank) && multiset(x) == multiset(y)
    ensures x == y
  {
    if x == [] {
      assert |y| == |multiset(y)| == 0;
    } else {
      SameHead(x, y, rank);
      TailMultiset(x, y);
      SortedUnique(x[1..], y[1..], rank);
      assert x == [x[0]] + x[1..] && y == [y[0]] + y[1..];
    }
  }

  /** Two elements already in rank order are their own sorted order. */
  lemma SortPair<T>(x: T, y: T, rank: T -> Rank)
    requires RankLe(rank(x), rank(y))
    ensures SortBy([x, y], rank) == [x, y]
  {
    assert [x, y][1..] == [y] && [y][1..] == [];
  }

  /** Two elements, the first ranked after the second, swap places. */
  lemma SortSwapped<T>(b: T, c: T, rank: T -> Rank)
    requires !RankLe(rank(b), rank(c))
    ensures SortBy([b, c], rank) == [c, b]
  {
    assert [b, c][1..] == [c] && [c][1..] == [];
  }

  /** An element ranked after both elements of a pair goes behind them. */
  lemma InsertBehindPair<T>(a: T, c: T, b: T, rank: T -> Rank)
    requires !RankLe(rank(a), rank(c)) && !RankLe(rank(a), rank(b))
    ensures Insert(a, [c, b], rank) == [c, b, a]
  {
    assert [c, b][1..] == [b] && [b][1..] == [];
    assert Insert(a, [b], rank) == [b, a];
    assert [c] + [b, a] == [c, b, a];
  }

  /** Three elements that each rank strictly after their successor are
      sorted into reverse order. */
  lemma SortReversed3<T>(a: T, b: T, c: T, rank: T -> Rank)
    requires !RankLe(rank(b), rank(c)) && !RankLe(rank(a), rank(c)) && !RankLe(rank(a), rank(b))
    ensures SortBy([a, b, c], rank) == [c, b, a]
  {
    SortSwapped(b, c, rank);
    InsertBehindPair(a, c, b, rank);
    assert [a, b, c][1..] == [b, c];
  }
}
