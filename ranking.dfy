/**
 * The order both `sortTrackingsInformation` comparators impose, and the
 * in-place sort they are handed to.
 *
 * Both comparators return 1 when the first entry has no date, -1 when only
 * the second has none, then order by smaller absolute day distance, and on a
 * tie put the entry whose tag comes later in a fixed tag list first. An entry
 * therefore ranks by the triple (undated, distance, -tie), and the comparator
 * is negative exactly when the first triple is strictly smaller.
 */
module Ranking {

  /** `dated` entries precede undated ones; `tie` is the tag's index in the tie-break list. */
  datatype Rank = Rank(dated: bool, distance: nat, tie: int)

  /** The comparator's "strictly before". */
  predicate RankLess(x: Rank, y: Rank) {
    x.dated && (!y.dated || x.distance < y.distance || (x.distance == y.distance && x.tie > y.tie))
  }

  /** No later element ranks strictly before an earlier one. */
  predicate SortedBy<T>(s: seq<T>, rank: T -> Rank) {
    forall i, j :: 0 <= i < j < |s| ==> !RankLess(rank(s[j]), rank(s[i]))
  }

  lemma RankLessIsStrictWeakOrder(x: Rank, y: Rank, z: Rank)
    ensures !RankLess(x, x)
    ensures RankLess(x, y) ==> !RankLess(y, x)
    ensures RankLess(x, y) && RankLess(y, z) ==> RankLess(x, z)
    ensures !RankLess(y, x) && !RankLess(z, y) ==> !RankLess(z, x)
  {
  }

  /** Exchanges two elements. */
  method Swap<T>(a: array<T>, i: nat, j: nat)
    requires i < j < a.Length
    modifies a
    ensures a[i] == old(a[j]) && a[j] == old(a[i])
    ensures forall k :: 0 <= k < a.Length && k != i && k != j ==> a[k] == old(a[k])
    ensures multiset(a[..]) == multiset(old(a[..]))
  {
    a[i], a[j] := a[j], a[i];
  }

  /** Moves `a[i]` left past the sorted prefix elements it ranks strictly before. */
  method InsertAt<T>(a: array<T>, rank: T -> Rank, i: nat)
    requires i < a.Length
    requires SortedBy(a[..i], rank)
    modifies a
    ensures SortedBy(a[..i + 1], rank)
    ensures multiset(a[..]) == multiset(old(a[..]))
    ensures a[i + 1..] == old(a[i + 1..])
  {
    var j := i;
    while j > 0 && RankLess(rank(a[j]), rank(a[j - 1]))
      invariant 0 <= j <= i
      invariant forall p, q :: 0 <= p < q <= i && p != j && q != j ==> !RankLess(rank(a[q]), rank(a[p]))
      invariant forall q :: j < q <= i ==> RankLess(rank(a[j]), rank(a[q]))
      invariant multiset(a[..]) == multiset(old(a[..]))
      invariant a[i + 1..] == old(a[i + 1..])
    {
      Swap(a, j - 1, j);
      j := j - 1;
    }
    forall p | 0 <= p < j
      ensures !RankLess(rank(a[j]), rank(a[p]))
    {
      if p < j - 1 {
        RankLessIsStrictWeakOrder(rank(a[p]), rank(a[j - 1]), rank(a[j]));
      }
    }
    forall q | j < q <= i
      ensures !RankLess(rank(a[q]), rank(a[j]))
    {
      RankLessIsStrictWeakOrder(rank(a[j]), rank(a[q]), rank(a[j]));
    }
  }

  /**
   * Sorts `a` in place by `rank`: an insertion sort that moves each element
   * left past the elements it ranks strictly before.
   */
  method SortBy<T>(a: array<T>, rank: T -> Rank)
    modifies a
    ensures SortedBy(a[..], rank)
    ensures multiset(a[..]) == multiset(old(a[..]))
  {
    var i := 0;
    while i < a.Length
      invariant 0 <= i <= a.Length
      invariant SortedBy(a[..i], rank)
      invariant multiset(a[..]) == multiset(old(a[..]))
    {
      InsertAt(a, rank, i);
      i := i + 1;
    }
    assert a[..i] == a[..];
  }

  /**
   * Keeping the first `m` elements of a sorted permutation keeps a sorted
   * selection of the input that no dropped element ranks strictly before.
   */
  lemma TopRanked<T>(p: seq<T>, input: seq<T>, rank: T -> Rank, m: nat)
    requires SortedBy(p, rank) && multiset(p) == multiset(input)
    requires m <= |p|
    ensures SortedBy(p[..m], rank)
    ensures multiset(p[..m]) <= multiset(input)
    ensures forall x, y :: x in multiset(input) - multiset(p[..m]) && y in p[..m] ==> !RankLess(rank(x), rank(y))
  {
    assert p == p[..m] + p[m..];
    assert multiset(p) == multiset(p[..m]) + multiset(p[m..]);
    forall x, y | x in multiset(input) - multiset(p[..m]) && y in p[..m]
      ensures !RankLess(rank(x), rank(y))
    {
      assert x in multiset(p[m..]);
      var j :| m <= j < |p| && p[j] == x by {
        assert x in p[m..];
      }
      var i :| 0 <= i < m && p[i] == y;
    }
  }
}
