/**
 * The staggered lattice: the points of a rectangle, on 0.5 steps, whose coordinates
 * add up to a whole number, in the order two nested `for` loops visit them.
 * Both the worker's grid (z outer, x inner) and its neighbour scan (x outer, z inner)
 * are instances of `Scan`, with the outer coordinate first in each pair.
 */
module Lattice {
  import opened Terrain

  /** One pass of the inner loop: points (o, i), iLo <= i <= iHi, with o + i even. */
  function Row(o: int, iLo: int, iHi: int): seq<(int, int)>
    decreases iHi - iLo
  {
    if iHi < iLo then []
    else Row(o, iLo, iHi - 1) + (if OnLattice(o, iHi) then [(o, iHi)] else [])
  }

  /** The whole nested loop: rows oLo..oHi, each row scanned iLo..iHi. */
  function Scan(oLo: int, oHi: int, iLo: int, iHi: int): seq<(int, int)>
    decreases oHi - oLo
  {
    if oHi < oLo then [] else Scan(oLo, oHi - 1, iLo, iHi) + Row(oHi, iLo, iHi)
  }

  predicate InRect(p: (int, int), oLo: int, oHi: int, iLo: int, iHi: int) {
    oLo <= p.0 <= oHi && iLo <= p.1 <= iHi
  }

  /** Strict lexicographic order on (outer, inner). */
  predicate Before(a: (int, int), b: (int, int)) {
    a.0 < b.0 || (a.0 == b.0 && a.1 < b.1)
  }

  predicate Increasing(s: seq<(int, int)>) {
    forall j, k :: 0 <= j < k < |s| ==> Before(s[j], s[k])
  }

  lemma {:induction false} RowMembers(o: int, iLo: int, iHi: int)
    ensures forall p :: p in Row(o, iLo, iHi) <==> p.0 == o && iLo <= p.1 <= iHi && OnLattice(p.0, p.1)
    decreases iHi - iLo
  {
    if iHi >= iLo {
      RowMembers(o, iLo, iHi - 1);
    }
  }

  lemma {:induction false} RowIncreasing(o: int, iLo: int, iHi: int)
    ensures Increasing(Row(o, iLo, iHi))
    decreases iHi - iLo
  {
    if iHi >= iLo {
      RowIncreasing(o, iLo, iHi - 1);
      RowMembers(o, iLo, iHi - 1);
      var s := Row(o, iLo, iHi - 1);
      assert forall j :: 0 <= j < |s| ==> s[j] in s;
    }
  }

  /** A point is scanned exactly when it is a lattice point of the rectangle. */
  lemma {:induction false} ScanMembers(oLo: int, oHi: int, iLo: int, iHi: int)
    ensures forall p :: p in Scan(oLo, oHi, iLo, iHi) <==> InRect(p, oLo, oHi, iLo, iHi) && OnLattice(p.0, p.1)
    decreases oHi - oLo
  {
    if oHi >= oLo {
      ScanMembers(oLo, oHi - 1, iLo, iHi);
      RowMembers(oHi, iLo, iHi);
    }
  }

  /** The scan visits rows in order and each row left to right, so no point twice. */
  lemma {:induction false} ScanIncreasing(oLo: int, oHi: int, iLo: int, iHi: int)
    ensures Increasing(Scan(oLo, oHi, iLo, iHi))
    decreases oHi - oLo
  {
    if oHi >= oLo {
      ScanIncreasing(oLo, oHi - 1, iLo, iHi);
      ScanMembers(oLo, oHi - 1, iLo, iHi);
      RowIncreasing(oHi, iLo, iHi);
      RowMembers(oHi, iLo, iHi);
      var a, b := Scan(oLo, oHi - 1, iLo, iHi), Row(oHi, iLo, iHi);
      assert forall j :: 0 <= j < |a| ==> a[j] in a;
      assert forall j :: 0 <= j < |b| ==> b[j] in b;
    }
  }

  lemma IncreasingDistinct(s: seq<(int, int)>, j: int, k: int)
    requires Increasing(s) && 0 <= j < |s| && 0 <= k < |s| && j != k
    ensures s[j] != s[k]
  {
  }
}
