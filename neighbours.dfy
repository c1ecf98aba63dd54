/**
 * The worker's neighbour lookup (getNeighbours in resources/workers/World_Generator.mjs):
 * scan the square of the given radius around a tile in 0.5 steps, x outer and z inner,
 * skip the tile's own position and the off-lattice points, and take the first tile of
 * every column that exists.
 *
 * The column hash maps a column to the list of INDICES of its tiles in the tile
 * sequence; an index plays the part of the JavaScript reference, so a tile rewritten
 * in the sequence is seen rewritten through its column too. Radii are in halves:
 * r = 1 is the source's radius 0.5, r = 2 its radius 1, r = 4 its radius 2.
 */
module Neighbours {
  import opened Terrain
  import opened Lattice

  type Columns = map<ColumnKey, seq<nat>>

  /** Every index a column list holds names one of the first `n` tiles. */
  predicate IndicesBelow(cols: Columns, n: nat) {
    forall key, j :: key in cols && 0 <= j < |cols[key]| ==> cols[key][j] < n
  }

  /** The loop's `continue` test: the tile's own position, or a point off the lattice. */
  predicate Skip(x: int, z: int, hx: int, hz: int) {
    (x == hx && z == hz) || !OnLattice(x, z)
  }

  /** `tileHash[getHash(x, z)]?.[0]`, as a list of zero or one tile. */
  function FirstTile(tiles: seq<Tile>, cols: Columns, p: (int, int)): seq<Tile>
    requires IndicesBelow(cols, |tiles|)
  {
    var key := KeyOf(p.0, p.1);
    if key in cols && |cols[key]| > 0 then [tiles[cols[key][0]]] else []
  }

  /** What one iteration of the inner loop pushes. */
  function VisitTiles(tiles: seq<Tile>, cols: Columns, x: int, z: int, hx: int, hz: int): seq<Tile>
    requires IndicesBelow(cols, |tiles|)
  {
    if Skip(x, z, hx, hz) then [] else FirstTile(tiles, cols, (x, z))
  }

  /** What the inner loop pushes for one x, z running from zLo up to z. */
  function RowTiles(tiles: seq<Tile>, cols: Columns, x: int, zLo: int, z: int, hx: int, hz: int): seq<Tile>
    requires IndicesBelow(cols, |tiles|)
    decreases z - zLo
  {
    if z < zLo then [] else RowTiles(tiles, cols, x, zLo, z - 1, hx, hz) + VisitTiles(tiles, cols, x, z, hx, hz)
  }

  /** What the nested loops push, x running from xLo up to x. */
  function ScanTiles(tiles: seq<Tile>, cols: Columns, xLo: int, x: int, zLo: int, zHi: int, hx: int, hz: int): seq<Tile>
    requires IndicesBelow(cols, |tiles|)
    decreases x - xLo
  {
    if x < xLo then [] else ScanTiles(tiles, cols, xLo, x - 1, zLo, zHi, hx, hz) + RowTiles(tiles, cols, x, zLo, zHi, hx, hz)
  }

  /** getNeighbours(tileHash, hx / 2, hz / 2, r / 2). */
  function NeighbourTiles(tiles: seq<Tile>, cols: Columns, hx: int, hz: int, r: nat): seq<Tile>
    requires IndicesBelow(cols, |tiles|)
  {
    ScanTiles(tiles, cols, hx - r, hx + r, hz - r, hz + r, hx, hz)
  }

  /**
   * The inner loop of getNeighbours for one x: z from hz - r to hz + r, skipping the
   * tile itself and off-lattice points, collecting the first tile of each existing column.
   */
  method VisitRow(tiles: seq<Tile>, cols: Columns, x: int, hx: int, hz: int, r: nat) returns (row: seq<Tile>)
    requires IndicesBelow(cols, |tiles|)
    ensures row == RowTiles(tiles, cols, x, hz - r, hz + r, hx, hz)
  {
    row := [];
    var z := hz - r;
    while z <= hz + r
      invariant hz - r <= z <= hz + r + 1
      invariant row == RowTiles(tiles, cols, x, hz - r, z - 1, hx, hz)
    {
      if !Skip(x, z, hx, hz) {
        var key := KeyOf(x, z);
        if key in cols && |cols[key]| > 0 {
          row := row + [tiles[cols[key][0]]];
        }
      }
      z := z + 1;
    }
    assert z == hz + r + 1;
  }

  /**
   * getNeighbours: the nested loops over the square, x outer and z inner, pushing the
   * first tile of each existing column at a lattice point other than the tile itself.
   */
  method GetNeighbours(tiles: seq<Tile>, cols: Columns, hx: int, hz: int, r: nat) returns (ns: seq<Tile>)
    requires IndicesBelow(cols, |tiles|)
    ensures ns == NeighbourTiles(tiles, cols, hx, hz, r)
  {
    ns := [];
    var x := hx - r;
    while x <= hx + r
      invariant hx - r <= x <= hx + r + 1
      invariant ns == ScanTiles(tiles, cols, hx - r, x - 1, hz - r, hz + r, hx, hz)
    {
      var row := VisitRow(tiles, cols, x, hx, hz, r);
      ns := ns + row;
      x := x + 1;
    }
    assert x == hx + r + 1;
  }

  /** A tile is pushed by a row exactly when it is first in the column of a point not skipped. */
  lemma {:induction false} RowTilesMembers(tiles: seq<Tile>, cols: Columns, x: int, zLo: int, z: int, hx: int, hz: int)
    requires IndicesBelow(cols, |tiles|)
    ensures forall t :: t in RowTiles(tiles, cols, x, zLo, z, hx, hz) <==>
      exists w :: zLo <= w <= z && !Skip(x, w, hx, hz) && FirstTile(tiles, cols, (x, w)) == [t]
    decreases z - zLo
  {
    if z >= zLo {
      RowTilesMembers(tiles, cols, x, zLo, z - 1, hx, hz);
      forall t | exists w :: zLo <= w <= z && !Skip(x, w, hx, hz) && FirstTile(tiles, cols, (x, w)) == [t]
        ensures t in RowTiles(tiles, cols, x, zLo, z, hx, hz)
      {
        var w :| zLo <= w <= z && !Skip(x, w, hx, hz) && FirstTile(tiles, cols, (x, w)) == [t];
        if w == z {
          assert VisitTiles(tiles, cols, x, z, hx, hz) == [t];
        }
      }
    }
  }

  /** A tile is pushed by the scan exactly when it is first in the column of a point not skipped. */
  lemma {:induction false} ScanTilesMembers(tiles: seq<Tile>, cols: Columns, xLo: int, x: int, zLo: int, zHi: int, hx: int, hz: int)
    requires IndicesBelow(cols, |tiles|)
    ensures forall t :: t in ScanTiles(tiles, cols, xLo, x, zLo, zHi, hx, hz) <==>
      exists v, w :: xLo <= v <= x && zLo <= w <= zHi && !Skip(v, w, hx, hz) && FirstTile(tiles, cols, (v, w)) == [t]
    decreases x - xLo
  {
    if x >= xLo {
      ScanTilesMembers(tiles, cols, xLo, x - 1, zLo, zHi, hx, hz);
      RowTilesMembers(tiles, cols, x, zLo, zHi, hx, hz);
      forall t | exists v, w :: xLo <= v <= x && zLo <= w <= zHi && !Skip(v, w, hx, hz) && FirstTile(tiles, cols, (v, w)) == [t]
        ensures t in ScanTiles(tiles, cols, xLo, x, zLo, zHi, hx, hz)
      {
        var v, w :| xLo <= v <= x && zLo <= w <= zHi && !Skip(v, w, hx, hz) && FirstTile(tiles, cols, (v, w)) == [t];
        if v == x {
          assert t in RowTiles(tiles, cols, x, zLo, zHi, hx, hz);
        } else {
          assert t in ScanTiles(tiles, cols, xLo, x - 1, zLo, zHi, hx, hz);
        }
      }
    }
  }

  /**
   * A tile is a neighbour of (hx, hz) at radius r / 2 exactly when it is the first tile
   * of the column of some other lattice point of the square.
   */
  lemma NeighbourMembers(tiles: seq<Tile>, cols: Columns, hx: int, hz: int, r: nat)
    requires IndicesBelow(cols, |tiles|)
    ensures forall t :: t in NeighbourTiles(tiles, cols, hx, hz, r) <==>
      exists v, w :: hx - r <= v <= hx + r && hz - r <= w <= hz + r && !Skip(v, w, hx, hz) &&
        FirstTile(tiles, cols, (v, w)) == [t]
  {
    var xLo, xHi, zLo, zHi := hx - r, hx + r, hz - r, hz + r;
    ScanTilesMembers(tiles, cols, xLo, xHi, zLo, zHi, hx, hz);
    assert NeighbourTiles(tiles, cols, hx, hz, r) == ScanTiles(tiles, cols, xLo, xHi, zLo, zHi, hx, hz);
  }

  /** The parities of the sums next to an even one. */
  lemma ParityAround(n: int)
    requires Even(n)
    ensures Even(n - 4) && !Even(n - 3) && Even(n - 2) && !Even(n - 1)
    ensures !Even(n + 1) && Even(n + 2) && !Even(n + 3) && Even(n + 4)
  {
    EvenNext(n - 4);
    EvenNext(n - 3);
    EvenNext(n - 2);
    EvenNext(n - 1);
    EvenNext(n);
    EvenNext(n + 1);
    EvenNext(n + 2);
  }

  /** A row of three centred on a point off the lattice: the two lattice points beside it. */
  lemma OddRow3(tiles: seq<Tile>, cols: Columns, o: int, c: int, hx: int, hz: int)
    requires IndicesBelow(cols, |tiles|) && !OnLattice(o, c)
    ensures RowTiles(tiles, cols, o, c - 1, c + 1, hx, hz) ==
      VisitTiles(tiles, cols, o, c - 1, hx, hz) + VisitTiles(tiles, cols, o, c + 1, hx, hz)
  {
    var lo, hi := c - 1, c + 1;
    var v0, v1, v2 := VisitTiles(tiles, cols, o, lo, hx, hz), VisitTiles(tiles, cols, o, c, hx, hz), VisitTiles(tiles, cols, o, hi, hx, hz);
    assert v1 == [];
    assert RowTiles(tiles, cols, o, lo, c - 2, hx, hz) == [];
    assert RowTiles(tiles, cols, o, lo, lo, hx, hz) == v0;
    assert RowTiles(tiles, cols, o, lo, c, hx, hz) == v0 + v1;
    assert RowTiles(tiles, cols, o, lo, hi, hx, hz) == v0 + v1 + v2;
  }

  /**
   * A row of five centred on (o, c): the points c-2, c, c+2 when (o, c) is a lattice
   * point, the points c-1, c+1 otherwise.
   */
  lemma Row5(tiles: seq<Tile>, cols: Columns, o: int, c: int, hx: int, hz: int)
    requires IndicesBelow(cols, |tiles|)
    ensures OnLattice(o, c) ==> (RowTiles(tiles, cols, o, c - 2, c + 2, hx, hz) ==
      VisitTiles(tiles, cols, o, c - 2, hx, hz) + VisitTiles(tiles, cols, o, c, hx, hz) + VisitTiles(tiles, cols, o, c + 2, hx, hz))
    ensures !OnLattice(o, c) ==> (RowTiles(tiles, cols, o, c - 2, c + 2, hx, hz) ==
      VisitTiles(tiles, cols, o, c - 1, hx, hz) + VisitTiles(tiles, cols, o, c + 1, hx, hz))
  {
    var lo, hi := c - 2, c + 2;
    EvenNext(o + c - 2);
    EvenNext(o + c - 1);
    EvenNext(o + c);
    EvenNext(o + c + 1);
    var v0, v1, v2, v3, v4 :=
      VisitTiles(tiles, cols, o, lo, hx, hz), VisitTiles(tiles, cols, o, c - 1, hx, hz),
      VisitTiles(tiles, cols, o, c, hx, hz), VisitTiles(tiles, cols, o, c + 1, hx, hz),
      VisitTiles(tiles, cols, o, hi, hx, hz);
    assert RowTiles(tiles, cols, o, lo, c - 3, hx, hz) == [];
    assert RowTiles(tiles, cols, o, lo, lo, hx, hz) == v0;
    assert RowTiles(tiles, cols, o, lo, c - 1, hx, hz) == v0 + v1;
    assert RowTiles(tiles, cols, o, lo, c, hx, hz) == v0 + v1 + v2;
    assert RowTiles(tiles, cols, o, lo, c + 1, hx, hz) == v0 + v1 + v2 + v3;
    assert RowTiles(tiles, cols, o, lo, hi, hx, hz) == v0 + v1 + v2 + v3 + v4;
    if OnLattice(o, c) {
      assert v1 == [] && v3 == [];
      assert v0 + v1 + v2 + v3 + v4 == v0 + v2 + v4;
    } else {
      assert v0 == [] && v2 == [] && v4 == [];
      assert v0 + v1 + v2 + v3 + v4 == v1 + v3;
    }
  }

  /** Three consecutive rows of the scan. */
  lemma Scan3(tiles: seq<Tile>, cols: Columns, xl: int, zl: int, zh: int, hx: int, hz: int)
    requires IndicesBelow(cols, |tiles|)
    ensures ScanTiles(tiles, cols, xl, xl + 2, zl, zh, hx, hz) ==
      RowTiles(tiles, cols, xl, zl, zh, hx, hz) + RowTiles(tiles, cols, xl + 1, zl, zh, hx, hz) +
      RowTiles(tiles, cols, xl + 2, zl, zh, hx, hz)
  {
    assert ScanTiles(tiles, cols, xl, xl - 1, zl, zh, hx, hz) == [];
    assert ScanTiles(tiles, cols, xl, xl, zl, zh, hx, hz) == RowTiles(tiles, cols, xl, zl, zh, hx, hz);
  }

  /** The own row of a lattice tile, one step each way: the tile is skipped, the rest is off the lattice. */
  lemma OwnRow3(tiles: seq<Tile>, cols: Columns, hx: int, hz: int)
    requires IndicesBelow(cols, |tiles|) && OnLattice(hx, hz)
    ensures RowTiles(tiles, cols, hx, hz - 1, hz + 1, hx, hz) == []
  {
    ParityAround(hx + hz);
    assert RowTiles(tiles, cols, hx, hz - 1, hz - 2, hx, hz) == [];
    assert RowTiles(tiles, cols, hx, hz - 1, hz - 1, hx, hz) == [];
    assert RowTiles(tiles, cols, hx, hz - 1, hz, hx, hz) == [];
  }

  /** The rows of the radius-0.5 square: two half-diagonal columns beside, none in the middle. */
  lemma HalfDiagonalRows(tiles: seq<Tile>, cols: Columns, hx: int, hz: int)
    requires IndicesBelow(cols, |tiles|) && OnLattice(hx, hz)
    ensures RowTiles(tiles, cols, hx - 1, hz - 1, hz + 1, hx, hz) ==
      FirstTile(tiles, cols, (hx - 1, hz - 1)) + FirstTile(tiles, cols, (hx - 1, hz + 1))
    ensures RowTiles(tiles, cols, hx + 1, hz - 1, hz + 1, hx, hz) ==
      FirstTile(tiles, cols, (hx + 1, hz - 1)) + FirstTile(tiles, cols, (hx + 1, hz + 1))
  {
    ParityAround(hx + hz);
    OddRow3(tiles, cols, hx - 1, hz, hx, hz);
    OddRow3(tiles, cols, hx + 1, hz, hx, hz);
  }

  /**
   * At radius 0.5 the neighbours of a lattice tile are the first tiles of the four
   * half-diagonal columns, in x-major, z-minor order.
   */
  lemma HalfDiagonalNeighbours(tiles: seq<Tile>, cols: Columns, hx: int, hz: int)
    requires IndicesBelow(cols, |tiles|) && OnLattice(hx, hz)
    ensures NeighbourTiles(tiles, cols, hx, hz, 1) ==
      FirstTile(tiles, cols, (hx - 1, hz - 1)) + FirstTile(tiles, cols, (hx - 1, hz + 1)) +
      FirstTile(tiles, cols, (hx + 1, hz - 1)) + FirstTile(tiles, cols, (hx + 1, hz + 1))
  {
    HalfDiagonalRows(tiles, cols, hx, hz);
    OwnRow3(tiles, cols, hx, hz);
    Scan3(tiles, cols, hx - 1, hz - 1, hz + 1, hx, hz);
    var a, b := RowTiles(tiles, cols, hx - 1, hz - 1, hz + 1, hx, hz), RowTiles(tiles, cols, hx + 1, hz - 1, hz + 1, hx, hz);
    assert NeighbourTiles(tiles, cols, hx, hz, 1) == a + [] + b;
  }

  /** The rows two columns away from a lattice tile hold three lattice points each. */
  lemma OuterRow(tiles: seq<Tile>, cols: Columns, o: int, hx: int, hz: int)
    requires IndicesBelow(cols, |tiles|) && OnLattice(hx, hz) && (o == hx - 2 || o == hx + 2)
    ensures RowTiles(tiles, cols, o, hz - 2, hz + 2, hx, hz) ==
      FirstTile(tiles, cols, (o, hz - 2)) + FirstTile(tiles, cols, (o, hz)) + FirstTile(tiles, cols, (o, hz + 2))
  {
    EvenNext(o + hz - 2);
    EvenNext(o + hz);
    if o == hx - 2 {
      EvenNext(hx + hz - 2);
    } else {
      EvenNext(hx + hz);
    }
    assert OnLattice(o, hz);
    Row5(tiles, cols, o, hz, hx, hz);
  }

  /** The rows next to a lattice tile hold two lattice points each. */
  lemma InnerRow(tiles: seq<Tile>, cols: Columns, o: int, hx: int, hz: int)
    requires IndicesBelow(cols, |tiles|) && OnLattice(hx, hz) && (o == hx - 1 || o == hx + 1)
    ensures RowTiles(tiles, cols, o, hz - 2, hz + 2, hx, hz) ==
      FirstTile(tiles, cols, (o, hz - 1)) + FirstTile(tiles, cols, (o, hz + 1))
  {
    ParityAround(hx + hz);
    Row5(tiles, cols, o, hz, hx, hz);
  }

  /** The tile's own row holds the lattice points above and below it. */
  lemma OwnRow(tiles: seq<Tile>, cols: Columns, hx: int, hz: int)
    requires IndicesBelow(cols, |tiles|) && OnLattice(hx, hz)
    ensures RowTiles(tiles, cols, hx, hz - 2, hz + 2, hx, hz) ==
      FirstTile(tiles, cols, (hx, hz - 2)) + FirstTile(tiles, cols, (hx, hz + 2))
  {
    ParityAround(hx + hz);
    Row5(tiles, cols, hx, hz, hx, hz);
    var a, b := FirstTile(tiles, cols, (hx, hz - 2)), FirstTile(tiles, cols, (hx, hz + 2));
    assert VisitTiles(tiles, cols, hx, hz, hx, hz) == [];
    assert a + [] + b == a + b;
  }

  /**
   * At radius 1 the neighbours of a lattice tile are the first tiles of 12 columns: the
   * 8 at distance 1 along the axes and diagonals and the 4 half-diagonals, grouped by x.
   */
  lemma RadiusOneNeighbours(tiles: seq<Tile>, cols: Columns, hx: int, hz: int)
    requires IndicesBelow(cols, |tiles|) && OnLattice(hx, hz)
    ensures NeighbourTiles(tiles, cols, hx, hz, 2) ==
      (FirstTile(tiles, cols, (hx - 2, hz - 2)) + FirstTile(tiles, cols, (hx - 2, hz)) + FirstTile(tiles, cols, (hx - 2, hz + 2))) +
      (FirstTile(tiles, cols, (hx - 1, hz - 1)) + FirstTile(tiles, cols, (hx - 1, hz + 1))) +
      (FirstTile(tiles, cols, (hx, hz - 2)) + FirstTile(tiles, cols, (hx, hz + 2))) +
      (FirstTile(tiles, cols, (hx + 1, hz - 1)) + FirstTile(tiles, cols, (hx + 1, hz + 1))) +
      (FirstTile(tiles, cols, (hx + 2, hz - 2)) + FirstTile(tiles, cols, (hx + 2, hz)) + FirstTile(tiles, cols, (hx + 2, hz + 2)))
  {
    var x0, x1, x3, x4 := hx - 2, hx - 1, hx + 1, hx + 2;
    var zl, zh := hz - 2, hz + 2;
    OuterRow(tiles, cols, x0, hx, hz);
    InnerRow(tiles, cols, x1, hx, hz);
    OwnRow(tiles, cols, hx, hz);
    InnerRow(tiles, cols, x3, hx, hz);
    OuterRow(tiles, cols, x4, hx, hz);
    var r0, r1, r2, r3, r4 :=
      RowTiles(tiles, cols, x0, zl, zh, hx, hz), RowTiles(tiles, cols, x1, zl, zh, hx, hz),
      RowTiles(tiles, cols, hx, zl, zh, hx, hz), RowTiles(tiles, cols, x3, zl, zh, hx, hz),
      RowTiles(tiles, cols, x4, zl, zh, hx, hz);
    assert ScanTiles(tiles, cols, x0, hx - 3, zl, zh, hx, hz) == [];
    assert ScanTiles(tiles, cols, x0, x0, zl, zh, hx, hz) == r0;
    assert ScanTiles(tiles, cols, x0, x1, zl, zh, hx, hz) == r0 + r1;
    assert ScanTiles(tiles, cols, x0, hx, zl, zh, hx, hz) == r0 + r1 + r2;
    assert ScanTiles(tiles, cols, x0, x3, zl, zh, hx, hz) == r0 + r1 + r2 + r3;
    assert ScanTiles(tiles, cols, x0, x4, zl, zh, hx, hz) == r0 + r1 + r2 + r3 + r4;
    assert NeighbourTiles(tiles, cols, hx, hz, 2) == ScanTiles(tiles, cols, x0, x4, zl, zh, hx, hz);
  }

  /** `s.every(P)` */
  predicate Every(P: Tile -> bool, s: seq<Tile>) {
    forall k :: 0 <= k < |s| ==> P(s[k])
  }

  /** `s.some(P)`, and `s.filter(P).length > 0` */
  predicate Any(P: Tile -> bool, s: seq<Tile>) {
    exists k :: 0 <= k < |s| && P(s[k])
  }

  /** Two tile sequences of one length on which P gives the same answers, index by index. */
  predicate AgreeOn(P: Tile -> bool, t1: seq<Tile>, t2: seq<Tile>) {
    |t1| == |t2| && forall j :: 0 <= j < |t1| ==> P(t1[j]) == P(t2[j])
  }

  lemma EveryAnyAppend(P: Tile -> bool, a: seq<Tile>, b: seq<Tile>)
    ensures Every(P, a + b) == (Every(P, a) && Every(P, b))
    ensures Any(P, a + b) == (Any(P, a) || Any(P, b))
  {
    assert forall k :: 0 <= k < |a| ==> (a + b)[k] == a[k];
    assert forall k :: 0 <= k < |b| ==> (a + b)[|a| + k] == b[k];
    if Any(P, a + b) {
      var k :| 0 <= k < |a + b| && P((a + b)[k]);
      if k >= |a| {
        assert P(b[k - |a|]);
      }
    }
  }

  lemma VisitAgree(P: Tile -> bool, t1: seq<Tile>, t2: seq<Tile>, cols: Columns, x: int, z: int, hx: int, hz: int)
    requires IndicesBelow(cols, |t1|) && AgreeOn(P, t1, t2)
    ensures Every(P, VisitTiles(t1, cols, x, z, hx, hz)) == Every(P, VisitTiles(t2, cols, x, z, hx, hz))
    ensures Any(P, VisitTiles(t1, cols, x, z, hx, hz)) == Any(P, VisitTiles(t2, cols, x, z, hx, hz))
  {
    var key := KeyOf(x, z);
    if !Skip(x, z, hx, hz) && key in cols && |cols[key]| > 0 {
      var j := cols[key][0];
      assert VisitTiles(t1, cols, x, z, hx, hz) == [t1[j]];
      assert VisitTiles(t2, cols, x, z, hx, hz) == [t2[j]];
    }
  }

  lemma {:induction false} RowAgree(P: Tile -> bool, t1: seq<Tile>, t2: seq<Tile>, cols: Columns, x: int, zLo: int, z: int, hx: int, hz: int)
    requires IndicesBelow(cols, |t1|) && AgreeOn(P, t1, t2)
    ensures Every(P, RowTiles(t1, cols, x, zLo, z, hx, hz)) == Every(P, RowTiles(t2, cols, x, zLo, z, hx, hz))
    ensures Any(P, RowTiles(t1, cols, x, zLo, z, hx, hz)) == Any(P, RowTiles(t2, cols, x, zLo, z, hx, hz))
    decreases z - zLo
  {
    if z >= zLo {
      RowAgree(P, t1, t2, cols, x, zLo, z - 1, hx, hz);
      VisitAgree(P, t1, t2, cols, x, z, hx, hz);
      EveryAnyAppend(P, RowTiles(t1, cols, x, zLo, z - 1, hx, hz), VisitTiles(t1, cols, x, z, hx, hz));
      EveryAnyAppend(P, RowTiles(t2, cols, x, zLo, z - 1, hx, hz), VisitTiles(t2, cols, x, z, hx, hz));
    }
  }

  lemma {:induction false} ScanAgree(P: Tile -> bool, t1: seq<Tile>, t2: seq<Tile>, cols: Columns, xLo: int, x: int, zLo: int, zHi: int, hx: int, hz: int)
    requires IndicesBelow(cols, |t1|) && AgreeOn(P, t1, t2)
    ensures Every(P, ScanTiles(t1, cols, xLo, x, zLo, zHi, hx, hz)) == Every(P, ScanTiles(t2, cols, xLo, x, zLo, zHi, hx, hz))
    ensures Any(P, ScanTiles(t1, cols, xLo, x, zLo, zHi, hx, hz)) == Any(P, ScanTiles(t2, cols, xLo, x, zLo, zHi, hx, hz))
    decreases x - xLo
  {
    if x >= xLo {
      ScanAgree(P, t1, t2, cols, xLo, x - 1, zLo, zHi, hx, hz);
      RowAgree(P, t1, t2, cols, x, zLo, zHi, hx, hz);
      EveryAnyAppend(P, ScanTiles(t1, cols, xLo, x - 1, zLo, zHi, hx, hz), RowTiles(t1, cols, x, zLo, zHi, hx, hz));
      EveryAnyAppend(P, ScanTiles(t2, cols, xLo, x - 1, zLo, zHi, hx, hz), RowTiles(t2, cols, x, zLo, zHi, hx, hz));
    }
  }

  /**
   * A neighbour test that gives the same answer on the old and the new version of every
   * tile gives the same answer on the neighbours before and after: this is what makes
   * an in-place pass equal to its simultaneous form.
   */
  lemma NeighboursAgree(P: Tile -> bool, t1: seq<Tile>, t2: seq<Tile>, cols: Columns, hx: int, hz: int, r: nat)
    requires IndicesBelow(cols, |t1|) && AgreeOn(P, t1, t2)
    ensures Every(P, NeighbourTiles(t1, cols, hx, hz, r)) == Every(P, NeighbourTiles(t2, cols, hx, hz, r))
    ensures Any(P, NeighbourTiles(t1, cols, hx, hz, r)) == Any(P, NeighbourTiles(t2, cols, hx, hz, r))
  {
    var xLo, xHi, zLo, zHi := hx - r, hx + r, hz - r, hz + r;
    ScanAgree(P, t1, t2, cols, xLo, xHi, zLo, zHi, hx, hz);
    assert NeighbourTiles(t1, cols, hx, hz, r) == ScanTiles(t1, cols, xLo, xHi, zLo, zHi, hx, hz);
    assert NeighbourTiles(t2, cols, hx, hz, r) == ScanTiles(t2, cols, xLo, xHi, zLo, zHi, hx, hz);
  }

  /** The neighbours are tiles of the list, so they share any property all tiles have. */
  lemma NeighboursAreTiles(P: Tile -> bool, tiles: seq<Tile>, cols: Columns, hx: int, hz: int, r: nat)
    requires IndicesBelow(cols, |tiles|)
    requires forall i :: 0 <= i < |tiles| ==> P(tiles[i])
    ensures Every(P, NeighbourTiles(tiles, cols, hx, hz, r))
  {
    var ns := NeighbourTiles(tiles, cols, hx, hz, r);
    NeighbourMembers(tiles, cols, hx, hz, r);
    forall k | 0 <= k < |ns|
      ensures P(ns[k])
    {
      assert ns[k] in ns;
    }
  }
}
