/**
 * Carousel ads as values, and their display order: a stable ascending sort by
 * `order_position`, a missing position read as 0 (`a.order_position || 0`).
 * Used by the admin list (src/pages/AdminCarouselAds.tsx) and the public
 * carousel (src/components/HeroCarousel.tsx).
 */
module Ads {
  import opened Wrappers
  import Seqs

  /** A carousel item as the REST client declares it. */
  datatype Ad = Ad(
    id: Option<string>,
    title: string,
    image: string,
    link: Option<string>,
    isActive: Option<bool>,
    orderPosition: Option<int>)

  /** The sort key: the position, 0 when it is missing. */
  function Position(ad: Ad): int {
    ad.orderPosition.GetOr(0)
  }

  function Positions(s: seq<Ad>): (r: seq<int>)
    ensures |r| == |s| && forall i :: 0 <= i < |s| ==> r[i] == Position(s[i])
  {
    seq(|s|, i requires 0 <= i < |s| => Position(s[i]))
  }

  predicate SortedByPosition(s: seq<Ad>) {
    forall i, j :: 0 <= i < j < |s| ==> Position(s[i]) <= Position(s[j])
  }

  function AtPosition(k: int): Ad -> bool {
    (ad: Ad) => Position(ad) == k
  }

  /**
   * Stability: for every key, the ads with that key appear in the same order as in
   * `s` (together with sortedness this determines a stable sort's output).
   */
  ghost predicate SameOrderPerKey(r: seq<Ad>, s: seq<Ad>) {
    forall k :: Seqs.Filter(r, AtPosition(k)) == Seqs.Filter(s, AtPosition(k))
  }

  /** Insert `x` after every element whose position is at most its own, scanning from the end. */
  function Insert(t: seq<Ad>, x: Ad): (r: seq<Ad>)
    ensures |r| == |t| + 1
    ensures multiset(r) == multiset(t) + multiset{x}
    decreases |t|
  {
    if t == [] || Position(t[|t| - 1]) <= Position(x) then t + [x]
    else
      var init, last := t[..|t| - 1], t[|t| - 1];
      assert t == init + [last];
      Insert(init, x) + [last]
  }

  /** Reference stable sort by position: insertion sort. */
  function SortByPosition(s: seq<Ad>): (r: seq<Ad>)
    ensures |r| == |s|
    ensures multiset(r) == multiset(s)
    decreases |s|
  {
    if s == [] then []
    else
      assert s == s[..|s| - 1] + [s[|s| - 1]];
      Insert(SortByPosition(s[..|s| - 1]), s[|s| - 1])
  }

  /** An upper bound on the positions of `t` and `x` bounds the insertion too. */
  lemma {:induction false} InsertBounded(t: seq<Ad>, x: Ad, b: int)
    requires forall i :: 0 <= i < |t| ==> Position(t[i]) <= b
    requires Position(x) <= b
    ensures forall i :: 0 <= i < |Insert(t, x)| ==> Position(Insert(t, x)[i]) <= b
    decreases |t|
  {
    if t != [] && Position(t[|t| - 1]) > Position(x) {
      var init, last := t[..|t| - 1], t[|t| - 1];
      InsertUnfold(t, x);
      InsertBounded(init, x, b);
    }
  }

  lemma {:induction false} InsertSorted(t: seq<Ad>, x: Ad)
    requires SortedByPosition(t)
    ensures SortedByPosition(Insert(t, x))
    decreases |t|
  {
    if t != [] && Position(t[|t| - 1]) > Position(x) {
      var init, last := t[..|t| - 1], t[|t| - 1];
      InsertUnfold(t, x);
      assert SortedByPosition(init);
      InsertSorted(init, x);
      InsertBounded(init, x, Position(last));
    }
  }

  lemma {:induction false} InsertPerKey(t: seq<Ad>, x: Ad, k: int)
    ensures Seqs.Filter(Insert(t, x), AtPosition(k))
         == Seqs.Filter(t, AtPosition(k)) + (if Position(x) == k then [x] else [])
    decreases |t|
  {
    if t == [] || Position(t[|t| - 1]) <= Position(x) {
      Seqs.FilterSnoc(t, x, AtPosition(k));
    } else {
      var init, last := t[..|t| - 1], t[|t| - 1];
      assert t == init + [last];
      InsertPerKey(init, x, k);
      Seqs.FilterSnoc(Insert(init, x), last, AtPosition(k));
      Seqs.FilterSnoc(init, last, AtPosition(k));
    }
  }

  /** The sort's output is ascending by position. */
  lemma {:induction false} SortIsSorted(s: seq<Ad>)
    ensures SortedByPosition(SortByPosition(s))
    decreases |s|
  {
    if s != [] {
      SortIsSorted(s[..|s| - 1]);
      InsertSorted(SortByPosition(s[..|s| - 1]), s[|s| - 1]);
    }
  }

  /** The sort is stable: ads with equal positions keep their input order. */
  lemma {:induction false} SortIsStable(s: seq<Ad>)
    ensures SameOrderPerKey(SortByPosition(s), s)
    decreases |s|
  {
    if s != [] {
      var init, last := s[..|s| - 1], s[|s| - 1];
      assert s == init + [last];
      SortIsStable(init);
      forall k ensures Seqs.Filter(SortByPosition(s), AtPosition(k)) == Seqs.Filter(s, AtPosition(k)) {
        InsertPerKey(SortByPosition(init), last, k);
        Seqs.FilterSnoc(init, last, AtPosition(k));
      }
    }
  }

  /** Sorting an already sorted list changes nothing; in particular sorting is idempotent. */
  lemma {:induction false} SortOfSortedIsIdentity(s: seq<Ad>)
    requires SortedByPosition(s)
    ensures SortByPosition(s) == s
    decreases |s|
  {
    if s != [] {
      var init := s[..|s| - 1];
      assert SortedByPosition(init);
      SortOfSortedIsIdentity(init);
    }
  }

  /** Where the insertion lands: after the last element whose position is at most `x`'s. */
  lemma {:induction false} InsertAt(t: seq<Ad>, x: Ad, j: nat)
    requires j <= |t|
    requires forall m :: j <= m < |t| ==> Position(t[m]) > Position(x)
    requires j == 0 || Position(t[j - 1]) <= Position(x)
    ensures Insert(t, x) == t[..j] + [x] + t[j..]
    decreases |t|
  {
    if j < |t| {
      InsertUnfold(t, x);
      InsertAt(t[..|t| - 1], x, j);
      SnocSlices(t, j);
    } else {
      assert t[..j] == t;
    }
  }

  lemma InsertUnfold(t: seq<Ad>, x: Ad)
    requires t != [] && Position(t[|t| - 1]) > Position(x)
    ensures Insert(t, x) == Insert(t[..|t| - 1], x) + [t[|t| - 1]]
  {
  }

  lemma SnocSlices(t: seq<Ad>, j: nat)
    requires j < |t|
    ensures t[..|t| - 1][..j] == t[..j]
    ensures t[..|t| - 1][j..] + [t[|t| - 1]] == t[j..]
  {
  }

  /** A sequence that agrees with `t` around one inserted `x` at `j` is that insertion. */
  lemma InsertedAt(b: seq<Ad>, t: seq<Ad>, x: Ad, j: nat)
    requires j <= |t| && |b| == |t| + 1
    requires forall m :: 0 <= m < j ==> b[m] == t[m]
    requires b[j] == x
    requires forall m :: j < m < |b| ==> b[m] == t[m - 1]
    ensures b == t[..j] + [x] + t[j..]
  {
    var c := t[..j] + [x] + t[j..];
    forall m | 0 <= m < |b| ensures b[m] == c[m] {
      if m > j {
        assert c[m] == t[j..][m - j - 1];
      }
    }
  }

  /** One step of the insertion sort: move `a[i]` left into the prefix `a[..i]`. */
  method InsertInPlace(a: array<Ad>, i: nat)
    requires i < a.Length
    modifies a
    ensures a[..i + 1] == Insert(old(a[..i]), old(a[i]))
    ensures forall m :: i < m < a.Length ==> a[m] == old(a[m])
  {
    var x := a[i];
    ghost var t := a[..i];
    var j := ShiftRight(a, i, x);
    a[j] := x;
    InsertedAt(a[..i + 1], t, x, j);
    InsertAt(t, x, j);
  }

  /** Shift the elements of `a[..i]` placed after `x` one slot right; `j` is the gap left. */
  method ShiftRight(a: array<Ad>, i: nat, x: Ad) returns (j: nat)
    requires i < a.Length
    modifies a
    ensures j <= i
    ensures forall m :: 0 <= m < j ==> a[m] == old(a[m])
    ensures forall m :: j < m <= i ==> a[m] == old(a[m - 1])
    ensures forall m :: i < m < a.Length ==> a[m] == old(a[m])
    ensures forall m :: j <= m < i ==> Position(old(a[m])) > Position(x)
    ensures j == 0 || Position(old(a[j - 1])) <= Position(x)
  {
    j := i;
    while j > 0 && Position(a[j - 1]) > Position(x)
      invariant 0 <= j <= i
      invariant forall m :: 0 <= m < j ==> a[m] == old(a[m])
      invariant forall m :: j < m <= i ==> a[m] == old(a[m - 1])
      invariant forall m :: i < m < a.Length ==> a[m] == old(a[m])
      invariant forall m :: j <= m < i ==> Position(old(a[m])) > Position(x)
    {
      a[j] := a[j - 1];
      j := j - 1;
    }
  }

  lemma SortPrefix(s: seq<Ad>, i: nat)
    requires i < |s|
    ensures SortByPosition(s[..i + 1]) == Insert(SortByPosition(s[..i]), s[i])
  {
    assert s[..i + 1][..i] == s[..i];
  }

  /**
   * `Array.prototype.sort` with the position comparator, in place. ECMAScript
   * requires the sort to be stable; an insertion sort is used here as one such sort.
   */
  method SortInPlace(a: array<Ad>)
    modifies a
    ensures a[..] == SortByPosition(old(a[..]))
  {
    ghost var orig := a[..];
    var i := 0;
    while i < a.Length
      invariant 0 <= i <= a.Length
      invariant a[..i] == SortByPosition(orig[..i])
      invariant forall m :: i <= m < a.Length ==> a[m] == orig[m]
    {
      SortPrefix(orig, i);
      assert a[i] == orig[i];
      InsertInPlace(a, i);
      i := i + 1;
    }
    assert a[..] == a[..a.Length];
    assert orig[..a.Length] == orig;
  }
}
