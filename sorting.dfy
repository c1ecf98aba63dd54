/**
 * `Array.prototype.sort` with a numeric comparator `(a, b) => key(a) - key(b)`, as the
 * page uses it to order tiles (resources/Drawable.mjs, resources/World.js). The sort is
 * modelled as a stable insertion sort. A NaN key makes the comparator NaN, which the
 * sort reads as "equal"; the sortedness lemmas therefore speak of lists of numbers.
 */
module Sorting {
  import opened Terrain

  /** The comparator `key(a) - key(b)` is positive: a must go after b. NaN is never after. */
  predicate After(a: Height, b: Height) {
    a.Tenths? && b.Tenths? && a.v > b.v
  }

  /** The key of a descending comparator `key(b) - key(a)`. */
  function Neg(h: Height): (r: Height)
    ensures h.Tenths? == r.Tenths?
    ensures h.Tenths? ==> r.v == -h.v
  {
    match h
    case Tenths(v) => Tenths(-v)
    case NaN => NaN
  }

  /** Insert `x` after the last element that need not go after it. */
  function Insert<T>(s: seq<T>, x: T, key: T -> Height): (r: seq<T>)
    ensures |r| == |s| + 1
  {
    if s == [] || !After(key(s[|s| - 1]), key(x)) then s + [x]
    else Insert(s[..|s| - 1], x, key) + [s[|s| - 1]]
  }

  /** The list sorted by `key`, equal keys keeping their order. */
  function SortBy<T>(s: seq<T>, key: T -> Height): (r: seq<T>)
    ensures |r| == |s|
  {
    if s == [] then [] else Insert(SortBy(s[..|s| - 1], key), s[|s| - 1], key)
  }

  predicate Numbers<T>(s: seq<T>, key: T -> Height) {
    forall i :: 0 <= i < |s| ==> key(s[i]).Tenths?
  }

  predicate Every<T>(P: T -> bool, s: seq<T>) {
    forall i :: 0 <= i < |s| ==> P(s[i])
  }

  /** No element goes after a later one. */
  predicate SortedBy<T>(s: seq<T>, key: T -> Height) {
    forall i, j :: 0 <= i < j < |s| ==> !After(key(s[i]), key(s[j]))
  }

  /** Ascending by `k1`, and by `k2` among equal `k1` (numbers only). */
  predicate LexSorted<T>(s: seq<T>, k1: T -> Height, k2: T -> Height)
    requires Numbers(s, k1) && Numbers(s, k2)
  {
    forall i, j :: 0 <= i < j < |s| ==>
      k1(s[i]).v < k1(s[j]).v || (k1(s[i]).v == k1(s[j]).v && k2(s[i]).v <= k2(s[j]).v)
  }

  /** Any property every element has survives insertion and sorting. */
  lemma {:induction false} InsertEvery<T>(P: T -> bool, s: seq<T>, x: T, key: T -> Height)
    requires Every(P, s) && P(x)
    ensures Every(P, Insert(s, x, key))
  {
    if s != [] && After(key(s[|s| - 1]), key(x)) {
      InsertEvery(P, s[..|s| - 1], x, key);
    }
  }

  lemma {:induction false} SortEvery<T>(P: T -> bool, s: seq<T>, key: T -> Height)
    requires Every(P, s)
    ensures Every(P, SortBy(s, key))
  {
    if s != [] {
      SortEvery(P, s[..|s| - 1], key);
      InsertEvery(P, SortBy(s[..|s| - 1], key), s[|s| - 1], key);
    }
  }

  /** Sorting permutes: the same elements, each as often. */
  lemma {:induction false} InsertPermutes<T>(s: seq<T>, x: T, key: T -> Height)
    ensures multiset(Insert(s, x, key)) == multiset(s) + multiset{x}
  {
    if s != [] && After(key(s[|s| - 1]), key(x)) {
      InsertPermutes(s[..|s| - 1], x, key);
      assert s == s[..|s| - 1] + [s[|s| - 1]];
    }
  }

  lemma {:induction false} SortPermutes<T>(s: seq<T>, key: T -> Height)
    ensures multiset(SortBy(s, key)) == multiset(s)
  {
    if s != [] {
      SortPermutes(s[..|s| - 1], key);
      InsertPermutes(SortBy(s[..|s| - 1], key), s[|s| - 1], key);
      assert s == s[..|s| - 1] + [s[|s| - 1]];
    }
  }

  lemma {:induction false} InsertSorted<T>(s: seq<T>, x: T, key: T -> Height)
    requires Numbers(s, key) && key(x).Tenths? && SortedBy(s, key)
    ensures SortedBy(Insert(s, x, key), key)
  {
    if s != [] && After(key(s[|s| - 1]), key(x)) {
      var front, last := s[..|s| - 1], s[|s| - 1];
      InsertSorted(front, x, key);
      var P := (e: T) => key(e).Tenths? && key(e).v <= key(last).v;
      InsertEvery(P, front, x, key);
    }
  }

  /** With numeric keys, the sort leaves the list ascending. */
  lemma {:induction false} SortSorted<T>(s: seq<T>, key: T -> Height)
    requires Numbers(s, key)
    ensures SortedBy(SortBy(s, key), key)
  {
    if s != [] {
      var front := s[..|s| - 1];
      SortSorted(front, key);
      SortEvery((e: T) => key(e).Tenths?, front, key);
      InsertSorted(SortBy(front, key), s[|s| - 1], key);
    }
  }

  lemma {:induction false} InsertLex<T>(s: seq<T>, x: T, k1: T -> Height, k2: T -> Height)
    requires Numbers(s, k1) && Numbers(s, k2) && k1(x).Tenths? && k2(x).Tenths?
    requires LexSorted(s, k1, k2)
    requires forall i :: 0 <= i < |s| ==> k2(s[i]).v <= k2(x).v
    ensures Numbers(Insert(s, x, k1), k1) && Numbers(Insert(s, x, k1), k2)
    ensures LexSorted(Insert(s, x, k1), k1, k2)
  {
    var N := (e: T) => k1(e).Tenths? && k2(e).Tenths?;
    InsertEvery(N, s, x, k1);
    if s != [] && After(k1(s[|s| - 1]), k1(x)) {
      var front, last := s[..|s| - 1], s[|s| - 1];
      InsertLex(front, x, k1, k2);
      var P := (e: T) => k1(e).Tenths? && k2(e).Tenths? &&
        (k1(e).v < k1(last).v || (k1(e).v == k1(last).v && k2(e).v <= k2(last).v));
      assert forall i :: 0 <= i < |front| ==> P(front[i]);
      InsertEvery(P, front, x, k1);
    }
  }

  /**
   * Sorting by `k1` a list already sorted by `k2` orders it by (k1, k2): the page's two
   * consecutive sorts, first by y and then by z, leave the tiles in (z, y) order.
   */
  lemma {:induction false} SortThenSort<T>(s: seq<T>, k1: T -> Height, k2: T -> Height)
    requires Numbers(s, k1) && Numbers(s, k2) && SortedBy(s, k2)
    ensures Numbers(SortBy(s, k1), k1) && Numbers(SortBy(s, k1), k2)
    ensures LexSorted(SortBy(s, k1), k1, k2)
  {
    if s != [] {
      var front, last := s[..|s| - 1], s[|s| - 1];
      SortThenSort(front, k1, k2);
      var P := (e: T) => k2(e).Tenths? && k2(e).v <= k2(last).v;
      assert Every(P, front);
      SortEvery(P, front, k1);
      InsertLex(SortBy(front, k1), last, k1, k2);
    }
  }

  /** `list.sort(by k2).sort(by k1)`: a permutation of the list, in (k1, k2) order. */
  lemma TwoSorts<T>(s: seq<T>, k1: T -> Height, k2: T -> Height)
    requires Numbers(s, k1) && Numbers(s, k2)
    ensures multiset(SortBy(SortBy(s, k2), k1)) == multiset(s)
    ensures Numbers(SortBy(SortBy(s, k2), k1), k1) && Numbers(SortBy(SortBy(s, k2), k1), k2)
    ensures LexSorted(SortBy(SortBy(s, k2), k1), k1, k2)
  {
    SortPermutes(s, k2);
    SortPermutes(SortBy(s, k2), k1);
    SortSorted(s, k2);
    SortEvery((e: T) => k1(e).Tenths? && k2(e).Tenths?, s, k2);
    SortThenSort(SortBy(s, k2), k1, k2);
  }
}
