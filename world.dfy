/**
 * The page side of world loading and the camera (resources/World.mjs): `World.generate`
 * serves stored tiles of the requested rectangle or asks the worker for new ones, and
 * keeps the lowest and highest heights seen; `#interpolate` is the page's own smoothing
 * helper; `Camera` clamps its position, requests new terrain when it nears an edge and
 * bounds its zoom.
 *
 * Storage (`Storage.getAll`, `saveAll`) is an input and is left out as output; the
 * worker round trip is a message out and a response in.
 */
module Worlds {
  import opened Wrappers
  import opened Terrain
  import opened Neighbours
  import D = Drawables
  import Generator
  import Smoothing
  import Dirt

  /* ---------- The requested rectangle ---------- */

  /** The four bounds of a request, `startX, startZ, endX, endZ`. */
  datatype Region = Region(sx: Num, sz: Num, ex: Num, ez: Num)

  /** `t.x >= startX && t.x <= endX && t.z >= startZ && t.z <= endZ` */
  predicate Inside(hx: int, hz: int, r: Region) {
    NumLe(r.sx, Fin(hx)) && NumLe(Fin(hx), r.ex) && NumLe(r.sz, Fin(hz)) && NumLe(Fin(hz), r.ez)
  }

  /** `World.#world.filter(...)`: the stored tiles inside the rectangle, in stored order. */
  function Stored(world: seq<Tile>, r: Region): (s: seq<Tile>)
    ensures |s| <= |world|
  {
    if world == [] then []
    else Stored(world[..|world| - 1], r) + (if Inside(world[|world| - 1].hx, world[|world| - 1].hz, r) then [world[|world| - 1]] else [])
  }

  /** A tile is served from storage exactly when it is stored and inside the rectangle. */
  lemma {:induction false} StoredMembers(world: seq<Tile>, r: Region)
    ensures forall t :: t in Stored(world, r) <==> t in world && Inside(t.hx, t.hz, r)
  {
    if world != [] {
      var front, last := world[..|world| - 1], world[|world| - 1];
      StoredMembers(front, r);
      assert world == front + [last];
    }
  }

  /* ---------- LOWEST_POINT and HIGHEST_POINT ---------- */

  /** `Math.min(a, b)`: NaN once either is NaN. */
  function JsMin(a: Height, b: Height): Height {
    if a.NaN? || b.NaN? then NaN else if a.v <= b.v then a else b
  }

  /** `Math.max(a, b)`: NaN once either is NaN. */
  function JsMax(a: Height, b: Height): Height {
    if a.NaN? || b.NaN? then NaN else if a.v >= b.v then a else b
  }

  /** LOWEST_POINT after folding in the heights of `s`. */
  function Lowest(h: Height, s: seq<Tile>): Height {
    if s == [] then h else JsMin(Lowest(h, s[..|s| - 1]), s[|s| - 1].y)
  }

  /** HIGHEST_POINT after folding in the heights of `s`. */
  function Highest(h: Height, s: seq<Tile>): Height {
    if s == [] then h else JsMax(Highest(h, s[..|s| - 1]), s[|s| - 1].y)
  }

  predicate NoNaN(s: seq<Tile>) {
    forall i :: 0 <= i < |s| ==> s[i].y.Tenths?
  }

  /**
   * With numeric heights, the folded LOWEST_POINT is the minimum of the old value and
   * all heights, and HIGHEST_POINT the maximum; one NaN height makes both NaN for good.
   */
  lemma {:induction false} Extremes(h: Height, g: Height, s: seq<Tile>)
    ensures h.Tenths? && NoNaN(s) ==>
      Lowest(h, s).Tenths? && Lowest(h, s).v <= h.v && (forall i :: 0 <= i < |s| ==> Lowest(h, s).v <= s[i].y.v) &&
      (Lowest(h, s) == h || exists i :: 0 <= i < |s| && Lowest(h, s) == s[i].y)
    ensures g.Tenths? && NoNaN(s) ==>
      Highest(g, s).Tenths? && Highest(g, s).v >= g.v && (forall i :: 0 <= i < |s| ==> Highest(g, s).v >= s[i].y.v) &&
      (Highest(g, s) == g || exists i :: 0 <= i < |s| && Highest(g, s) == s[i].y)
    ensures !NoNaN(s) ==> Lowest(h, s).NaN? && Highest(g, s).NaN?
  {
    if s != [] {
      var front := s[..|s| - 1];
      Extremes(h, g, front);
      assert forall i :: 0 <= i < |front| ==> front[i] == s[i];
      if !NoNaN(s) && NoNaN(front) {
        assert s[|s| - 1].y.NaN?;
      }
    }
  }

  /** A drawn tile rebuilt from a stored or generated one: same x, y, z and type. */
  predicate Copies(o: D.Tile, t: Tile) {
    o.hx == t.hx && o.y == t.y && o.hz == t.hz && o.kind == t.kind
  }

  /* ---------- The worker round trip ---------- */

  /** `{ function: "generate", params: [startX, startZ, endX, endZ] }` */
  datatype WorkerMessage = WorkerMessage(name: string, params: seq<Num>)

  /** The request posted to the worker: the four bounds and nothing else. */
  function Message(r: Region): WorkerMessage {
    WorkerMessage("generate", [r.sx, r.sz, r.ex, r.ez])
  }

  /** The callback's test `startX == data.startX && ...` (NaN equals nothing). */
  predicate Answers(r: Region, data: Generator.Response) {
    NumEq(r.sx, data.startX) && NumEq(r.sz, data.startZ) && NumEq(r.ex, data.endX) && NumEq(r.ez, data.endZ)
  }

  predicate HasNaN(r: Region) {
    r.sx.NaNum? || r.sz.NaNum? || r.ex.NaNum? || r.ez.NaNum?
  }

  /**
   * The worker echoes the bounds of the message it gets, so its response to a request
   * answers that request exactly when no bound is NaN; with a NaN bound the request is
   * never resolved. A response for other bounds is never taken for this request.
   */
  lemma EchoAnswers(r: Region, tiles: seq<Tile>)
    ensures var m := Message(r);
      Answers(r, Generator.Response(tiles, m.params[0], m.params[1], m.params[2], m.params[3])) <==> !HasNaN(r)
  {
  }

  lemma OtherBoundsIgnored(r: Region, data: Generator.Response)
    requires data.startX != r.sx || data.startZ != r.sz || data.endX != r.ex || data.endZ != r.ez
    ensures !Answers(r, data)
  {
  }

  /** What `World.generate` returns: stored tiles now, or a message to the worker. */
  datatype Outcome = Loaded(tiles: seq<D.Tile>) | Requested(message: WorkerMessage)

  /** The static state of `World`: the stored world once read, and the height extremes. */
  class World {
    var lowest: Height
    var highest: Height
    var world: Option<seq<Tile>>

    constructor ()
      ensures lowest == Units(WORLD_HEIGHT) && highest == Units(0) && world == None
    {
      lowest := Units(WORLD_HEIGHT);
      highest := Units(0);
      world := None;
    }

    /** `tiles.map(t => { update the extremes; return new Tile(t.x, t.y, t.z, t.type) })` */
    method Rebuild(found: seq<Tile>) returns (r: seq<D.Tile>)
      modifies this
      ensures |r| == |found| && forall i :: 0 <= i < |found| ==> Copies(r[i], found[i])
      ensures lowest == Lowest(old(lowest), found) && highest == Highest(old(highest), found)
      ensures world == old(world)
    {
      r := [];
      var i := 0;
      while i < |found|
        invariant 0 <= i <= |found| && |r| == i
        invariant forall j :: 0 <= j < i ==> Copies(r[j], found[j])
        invariant lowest == Lowest(old(lowest), found[..i]) && highest == Highest(old(highest), found[..i])
        invariant world == old(world)
      {
        var t := found[i];
        assert found[..i + 1][..i] == found[..i];
        lowest := JsMin(lowest, t.y);
        highest := JsMax(highest, t.y);
        var o := new D.Tile(t.hx, t.y, t.hz, Some(t.kind));
        r := r + [o];
        i := i + 1;
      }
      assert found[..|found|] == found;
    }

    /**
     * `World.generate(tiles, startX, startZ, endX, endZ)`: read storage once; if the
     * caller's tiles plus the stored tiles of the rectangle are not empty, return them
     * rebuilt; otherwise post the four bounds to the worker.
     */
    method Generate(tiles: seq<Tile>, region: Region, storage: seq<Tile>) returns (o: Outcome)
      modifies this
      ensures world == (if old(world).None? then Some(storage) else old(world))
      ensures var found := tiles + Stored(world.value, region);
        if found != [] then
          o.Loaded? && |o.tiles| == |found| && (forall i :: 0 <= i < |found| ==> Copies(o.tiles[i], found[i])) &&
          lowest == Lowest(old(lowest), found) && highest == Highest(old(highest), found)
        else
          o == Requested(Message(region)) && lowest == old(lowest) && highest == old(highest)
    {
      if world.None? {
        world := Some(storage);
      }
      var found := tiles + Stored(world.value, region);
      if |found| > 0 {
        var r := Rebuild(found);
        o := Loaded(r);
      } else {
        o := Requested(Message(region));
      }
    }

    /**
     * The message callback for a pending request: a response with the request's bounds
     * resolves it with the rebuilt tiles; any other response leaves everything as it is.
     */
    method Receive(region: Region, data: Generator.Response) returns (resolved: Option<seq<D.Tile>>)
      modifies this
      ensures Answers(region, data) ==>
        resolved.Some? && |resolved.value| == |data.tiles| &&
        (forall i :: 0 <= i < |data.tiles| ==> Copies(resolved.value[i], data.tiles[i])) &&
        lowest == Lowest(old(lowest), data.tiles) && highest == Highest(old(highest), data.tiles) && world == old(world)
      ensures !Answers(region, data) ==> resolved.None? && unchanged(this)
    {
      if Answers(region, data) {
        var r := Rebuild(data.tiles);
        resolved := Some(r);
      } else {
        resolved := None;
      }
    }
  }

  /* ---------- The page's `#interpolate` ---------- */

  /**
   * The eight columns `#interpolate` reads around a tile, in its order: the four at
   * distance 1 along the axes, then the four half-diagonals (doubled offsets).
   */
  function PageNeighbours(all: seq<Tile>, cols: Columns, hx: int, hz: int): seq<Tile>
    requires IndicesBelow(cols, |all|)
  {
    FirstTile(all, cols, (hx - 2, hz)) + FirstTile(all, cols, (hx + 2, hz)) +
    FirstTile(all, cols, (hx, hz - 2)) + FirstTile(all, cols, (hx, hz + 2)) +
    FirstTile(all, cols, (hx - 1, hz - 1)) + FirstTile(all, cols, (hx + 1, hz + 1)) +
    FirstTile(all, cols, (hx + 1, hz - 1)) + FirstTile(all, cols, (hx - 1, hz + 1))
  }

  /** What `#interpolate(tiles, tileHash)` computes for one tile. */
  function PageMean(all: seq<Tile>, cols: Columns, t: Tile): Height
    requires IndicesBelow(cols, |all|)
  {
    Smoothing.Mean(PageNeighbours(all, cols, t.hx, t.hz))
  }

  /** `World.#interpolate`: one rounded mean per tile, in order. */
  method Interpolate(tiles: seq<Tile>, all: seq<Tile>, cols: Columns) returns (hs: seq<Height>)
    requires IndicesBelow(cols, |all|)
    ensures |hs| == |tiles| && forall i :: 0 <= i < |tiles| ==> hs[i] == PageMean(all, cols, tiles[i])
  {
    hs := [];
    var i := 0;
    while i < |tiles|
      invariant 0 <= i <= |tiles| && |hs| == i
      invariant forall j :: 0 <= j < i ==> hs[j] == PageMean(all, cols, tiles[j])
    {
      var t := tiles[i];
      var ns := FirstTile(all, cols, (t.hx - 2, t.hz)) + FirstTile(all, cols, (t.hx + 2, t.hz)) +
        FirstTile(all, cols, (t.hx, t.hz - 2)) + FirstTile(all, cols, (t.hx, t.hz + 2)) +
        FirstTile(all, cols, (t.hx - 1, t.hz - 1)) + FirstTile(all, cols, (t.hx + 1, t.hz + 1)) +
        FirstTile(all, cols, (t.hx + 1, t.hz - 1)) + FirstTile(all, cols, (t.hx - 1, t.hz + 1));
      hs := hs + [Smoothing.Mean(ns)];
      i := i + 1;
    }
  }

  /* ---------- The page's `#generateDirt` ---------- */

  /**
   * `World.#generateDirt(tiles, dirt, tileHash)`: the worker's dirt rule, with each
   * dirt tile built as a drawn `Tile` of type DIRT one unit below its candidate. The
   * candidates are the previous dirt, or the GRASS tiles when there is none.
   */
  method GenerateDirt(tiles: seq<Tile>, cols: Columns, last: Option<seq<Tile>>) returns (d: seq<D.Tile>)
    requires IndicesBelow(cols, |tiles|)
    requires forall k :: 0 <= k < |Dirt.Candidates(tiles, last)| ==> TileKey(Dirt.Candidates(tiles, last)[k]) in cols
    ensures var cands := Dirt.Candidates(tiles, last);
      var want := Dirt.DirtOf(tiles, cols, cands, |cands|);
      |d| == |want| && forall i :: 0 <= i < |d| ==> Copies(d[i], want[i])
  {
    var cands := Dirt.Candidates(tiles, last);
    d := [];
    ghost var want: seq<Tile> := [];
    var i := 0;
    while i < |cands|
      invariant 0 <= i <= |cands| && want == Dirt.DirtOf(tiles, cols, cands, i)
      invariant |d| == |want| && forall j :: 0 <= j < |d| ==> Copies(d[j], want[j])
    {
      var c := cands[i];
      if !Dirt.Covered(tiles, cols, c) && Dirt.Exposed(tiles, cols, c) {
        var o := new D.Tile(c.hx, Minus(c.y, 10), c.hz, Some(TileType.Dirt));
        d, want := d + [o], want + [Dirt.DirtUnder(c)];
      }
      i := i + 1;
    }
  }

  /**
   * A page dirt tile sits one unit below a candidate whose column has nothing there and
   * whose south-east or south-west column drops by two or more.
   */
  lemma PageDirtBelowCandidate(tiles: seq<Tile>, cols: Columns, last: Option<seq<Tile>>, d: seq<D.Tile>, i: nat)
    requires IndicesBelow(cols, |tiles|)
    requires var cands := Dirt.Candidates(tiles, last);
      var want := Dirt.DirtOf(tiles, cols, cands, |cands|);
      |d| == |want| && (forall k :: 0 <= k < |d| ==> Copies(d[k], want[k])) && i < |d|
    ensures var cands := Dirt.Candidates(tiles, last);
      exists k :: 0 <= k < |cands| && Dirt.NeedsDirt(tiles, cols, cands[k]) &&
        d[i].hx == cands[k].hx && d[i].hz == cands[k].hz && d[i].y == Minus(cands[k].y, 10) && d[i].kind == TileType.Dirt
  {
    var cands := Dirt.Candidates(tiles, last);
    Dirt.DirtFromCandidates(tiles, cols, cands, |cands|);
    var k := Dirt.DirtOrigins(tiles, cols, cands, |cands|)[i];
    assert Dirt.NeedsDirt(tiles, cols, cands[k]);
  }

  /**
   * The converse: every candidate whose column has nothing one unit below it and whose
   * south-east or south-west column drops by two or more gets a drawn DIRT tile there.
   */
  lemma PageDirtComplete(tiles: seq<Tile>, cols: Columns, last: Option<seq<Tile>>, d: seq<D.Tile>, k: nat)
    requires IndicesBelow(cols, |tiles|)
    requires var cands := Dirt.Candidates(tiles, last);
      var want := Dirt.DirtOf(tiles, cols, cands, |cands|);
      |d| == |want| && (forall j :: 0 <= j < |d| ==> Copies(d[j], want[j])) &&
      k < |cands| && Dirt.NeedsDirt(tiles, cols, cands[k])
    ensures var c := Dirt.Candidates(tiles, last)[k];
      exists i :: 0 <= i < |d| &&
        d[i].hx == c.hx && d[i].hz == c.hz && d[i].y == Minus(c.y, 10) && d[i].kind == TileType.Dirt
  {
    var cands := Dirt.Candidates(tiles, last);
    var want := Dirt.DirtOf(tiles, cols, cands, |cands|);
    Dirt.DirtOfComplete(tiles, cols, cands, |cands|);
    assert Dirt.DirtUnder(cands[k]) in want;
    var i :| 0 <= i < |want| && want[i] == Dirt.DirtUnder(cands[k]);
    assert Copies(d[i], want[i]);
  }

  /**
   * On the lattice, the page reads the worker's radius-1 neighbours except the four
   * corner columns (x +- 1, z +- 1): the same tiles, each as often, once the corners are
   * added back.
   */
  lemma PageReadsWorkerNeighboursButCorners(all: seq<Tile>, cols: Columns, hx: int, hz: int)
    requires IndicesBelow(cols, |all|) && OnLattice(hx, hz)
    ensures multiset(PageNeighbours(all, cols, hx, hz)) +
      multiset(FirstTile(all, cols, (hx - 2, hz - 2)) + FirstTile(all, cols, (hx - 2, hz + 2)) +
               FirstTile(all, cols, (hx + 2, hz - 2)) + FirstTile(all, cols, (hx + 2, hz + 2)))
      == multiset(NeighbourTiles(all, cols, hx, hz, 2))
  {
    RadiusOneNeighbours(all, cols, hx, hz);
  }

  /**
   * A page mean of heights whole-numbered in [a, b] is NaN (no column found, or a NaN
   * height) or a whole height in [a, b].
   */
  lemma PageMeanWithin(all: seq<Tile>, cols: Columns, t: Tile, a: int, b: int)
    requires IndicesBelow(cols, |all|)
    requires forall i :: 0 <= i < |all| ==> all[i].y.Tenths? && 10 * a <= all[i].y.v <= 10 * b
    ensures PageMean(all, cols, t).NaN? <==> PageNeighbours(all, cols, t.hx, t.hz) == []
    ensures PageMean(all, cols, t).Tenths? ==> 10 * a <= PageMean(all, cols, t).v <= 10 * b && Integral(PageMean(all, cols, t))
  {
    var ns := PageNeighbours(all, cols, t.hx, t.hz);
    PageNeighboursWithin(all, cols, t.hx, t.hz, a, b);
    if ns != [] {
      Smoothing.MeanWithin(ns, a, b);
    }
  }

  lemma WithinAppend(s: seq<Tile>, u: seq<Tile>, a: int, b: int)
    requires Smoothing.HeightsWithin(s, a, b) && Smoothing.HeightsWithin(u, a, b)
    ensures Smoothing.HeightsWithin(s + u, a, b)
  {
    assert forall k :: |s| <= k < |s + u| ==> (s + u)[k] == u[k - |s|];
  }

  /** A column's first tile is a tile of the list, so it keeps the list's height bounds. */
  lemma FirstTileWithin(all: seq<Tile>, cols: Columns, p: (int, int), a: int, b: int)
    requires IndicesBelow(cols, |all|)
    requires forall i :: 0 <= i < |all| ==> all[i].y.Tenths? && 10 * a <= all[i].y.v <= 10 * b
    ensures Smoothing.HeightsWithin(FirstTile(all, cols, p), a, b)
  {
  }

  lemma PageNeighboursWithin(all: seq<Tile>, cols: Columns, hx: int, hz: int, a: int, b: int)
    requires IndicesBelow(cols, |all|)
    requires forall i :: 0 <= i < |all| ==> all[i].y.Tenths? && 10 * a <= all[i].y.v <= 10 * b
    ensures Smoothing.HeightsWithin(PageNeighbours(all, cols, hx, hz), a, b)
  {
    var f0, f1 := FirstTile(all, cols, (hx - 2, hz)), FirstTile(all, cols, (hx + 2, hz));
    var f2, f3 := FirstTile(all, cols, (hx, hz - 2)), FirstTile(all, cols, (hx, hz + 2));
    var f4, f5 := FirstTile(all, cols, (hx - 1, hz - 1)), FirstTile(all, cols, (hx + 1, hz + 1));
    var f6, f7 := FirstTile(all, cols, (hx + 1, hz - 1)), FirstTile(all, cols, (hx - 1, hz + 1));
    FirstTileWithin(all, cols, (hx - 2, hz), a, b);
    FirstTileWithin(all, cols, (hx + 2, hz), a, b);
    FirstTileWithin(all, cols, (hx, hz - 2), a, b);
    FirstTileWithin(all, cols, (hx, hz + 2), a, b);
    FirstTileWithin(all, cols, (hx - 1, hz - 1), a, b);
    FirstTileWithin(all, cols, (hx + 1, hz + 1), a, b);
    FirstTileWithin(all, cols, (hx + 1, hz - 1), a, b);
    FirstTileWithin(all, cols, (hx - 1, hz + 1), a, b);
    WithinAppend(f0, f1, a, b);
    WithinAppend(f0 + f1, f2, a, b);
    WithinAppend(f0 + f1 + f2, f3, a, b);
    WithinAppend(f0 + f1 + f2 + f3, f4, a, b);
    WithinAppend(f0 + f1 + f2 + f3 + f4, f5, a, b);
    WithinAppend(f0 + f1 + f2 + f3 + f4 + f5, f6, a, b);
    WithinAppend(f0 + f1 + f2 + f3 + f4 + f5 + f6, f7, a, b);
  }

  /* ---------- The camera ---------- */

  /** A screen position `{ x, y }`, or the camera's own `{ x, z }`. */
  type Point = (real, real)

  const MIN_ZOOM: real := 0.5
  const MAX_ZOOM: real := 3.0

  /** `Math.min(hi, Math.max(0, v))`: the camera's clamp on one axis. */
  function Clamp(v: real, hi: real): (c: real)
    ensures c <= hi
    ensures 0.0 <= hi ==> 0.0 <= c && (0.0 <= v <= hi ==> c == v) && (v < 0.0 ==> c == 0.0) && (hi < v ==> c == hi)
    ensures hi < 0.0 ==> c == hi
  {
    var m := if v < 0.0 then 0.0 else v;
    if hi < m then hi else m
  }

  /** Clamping twice is clamping once: a clamped position stays put. */
  lemma ClampIdempotent(v: real, hi: real)
    ensures Clamp(Clamp(v, hi), hi) == Clamp(v, hi)
  {
  }

  function Abs(a: real): real {
    if a < 0.0 then -a else a
  }

  /** `Math.min(...xs)` over whole half-coordinates: Infinity for no values. */
  function Least(s: seq<int>): (m: Num)
    ensures s == [] <==> m.PosInf?
    ensures s != [] ==> m.Fin? && m.half in s && forall i :: 0 <= i < |s| ==> m.half <= s[i]
  {
    if s == [] then PosInf
    else
      var m := Least(s[..|s| - 1]);
      if m.Fin? && m.half <= s[|s| - 1] then m else Fin(s[|s| - 1])
  }

  /** `Math.max(...xs)`: -Infinity for no values. */
  function Greatest(s: seq<int>): (m: Num)
    ensures s == [] <==> m.NegInf?
    ensures s != [] ==> m.Fin? && m.half in s && forall i :: 0 <= i < |s| ==> s[i] <= m.half
  {
    if s == [] then NegInf
    else
      var m := Greatest(s[..|s| - 1]);
      if m.Fin? && s[|s| - 1] <= m.half then m else Fin(s[|s| - 1])
  }

  /** `tiles.map(t => t.x)` */
  function Xs(ts: seq<D.Tile>): (s: seq<int>)
    ensures |s| == |ts| && forall i :: 0 <= i < |ts| ==> s[i] == ts[i].hx
  {
    seq(|ts|, i requires 0 <= i < |ts| => ts[i].hx)
  }

  /** `tiles.map(t => t.z)` */
  function Zs(ts: seq<D.Tile>): (s: seq<int>)
    ensures |s| == |ts| && forall i :: 0 <= i < |ts| ==> s[i] == ts[i].hz
  {
    seq(|ts|, i requires 0 <= i < |ts| => ts[i].hz)
  }

  /** `tiles.filter(t => t.x == edge)` (alongX) or `t.z == edge`, in order. */
  function OnEdge(ts: seq<D.Tile>, edge: Num, alongX: bool): (c: seq<D.Tile>)
    ensures |c| <= |ts|
    ensures forall i :: 0 <= i < |c| ==> c[i] in ts && NumEq(Fin(if alongX then c[i].hx else c[i].hz), edge)
    ensures forall i :: 0 <= i < |ts| && NumEq(Fin(if alongX then ts[i].hx else ts[i].hz), edge) ==> ts[i] in c
  {
    if ts == [] then []
    else
      var t := ts[|ts| - 1];
      assert ts == ts[..|ts| - 1] + [t];
      OnEdge(ts[..|ts| - 1], edge, alongX) + (if NumEq(Fin(if alongX then t.hx else t.hz), edge) then [t] else [])
  }

  /**
   * `TileManager.generate(undefined, startX, startZ, endX, endZ, connectedTiles)`: the
   * rectangle to load and the tiles along the edge it joins.
   */
  datatype Request = Request(region: Region, connected: seq<D.Tile>)

  /** The four edges `moveTo` can extend, in the order it tries them. */
  datatype Side = Left | Right | Top | Bottom

  /** The coordinate of the loaded tiles' edge on a side: `minX`, `maxX`, `minZ` or `maxZ`. */
  function EdgeOf(tiles: seq<D.Tile>, side: Side): Num {
    match side
    case Left => Least(Xs(tiles))
    case Right => Greatest(Xs(tiles))
    case Top => Least(Zs(tiles))
    case Bottom => Greatest(Zs(tiles))
  }

  /** Some loaded tile lies on every edge of the loaded tiles. */
  lemma EdgeHasTiles(tiles: seq<D.Tile>, side: Side)
    ensures tiles != [] ==> OnEdge(tiles, EdgeOf(tiles, side), side.Left? || side.Right?) != []
  {
    if tiles != [] {
      var alongX := side.Left? || side.Right?;
      var edge := EdgeOf(tiles, side);
      var s := if alongX then Xs(tiles) else Zs(tiles);
      assert edge.half in s;
      var k :| 0 <= k < |s| && s[k] == edge.half;
      assert tiles[k] in OnEdge(tiles, edge, alongX);
    }
  }

  /** The strip of 16 tiles beyond one edge, and the loaded tiles on that edge. */
  function Strip(tiles: seq<D.Tile>, side: Side): (q: Request)
    ensures forall i :: 0 <= i < |q.connected| ==> q.connected[i] in tiles
    ensures tiles != [] ==> q.connected != []
  {
    EdgeHasTiles(tiles, side);
    Request(StripRegion(tiles, side), OnEdge(tiles, EdgeOf(tiles, side), side.Left? || side.Right?))
  }

  /** The 16 tiles wide rectangle beyond one edge of the loaded tiles. */
  function StripRegion(tiles: seq<D.Tile>, side: Side): Region {
    var minX, minZ := Least(Xs(tiles)), Least(Zs(tiles));
    var maxX, maxZ := Greatest(Xs(tiles)), Greatest(Zs(tiles));
    match side
    case Left => Region(Plus(minX, -32), minZ, Plus(minX, -1), maxZ)
    case Right => Region(Plus(maxX, 1), minZ, Plus(maxX, 32), maxZ)
    case Top => Region(minX, Plus(minZ, -32), maxX, Plus(minZ, -1))
    case Bottom => Region(minX, Plus(maxZ, 1), maxX, Plus(maxZ, 32))
  }

  /** A strip never overlaps the loaded tiles: it lies wholly beyond their edge. */
  lemma StripAvoidsTiles(tiles: seq<D.Tile>, side: Side, i: nat)
    requires i < |tiles|
    ensures !Inside(tiles[i].hx, tiles[i].hz, Strip(tiles, side).region)
  {
    var xs, zs := Xs(tiles), Zs(tiles);
    assert xs[i] == tiles[i].hx && zs[i] == tiles[i].hz;
  }

  /** The loaded tiles span a finite, non-empty range on both axes. */
  lemma FiniteSpan(tiles: seq<D.Tile>)
    requires tiles != []
    ensures Least(Xs(tiles)).Fin? && Greatest(Xs(tiles)).Fin? && Least(Xs(tiles)).half <= Greatest(Xs(tiles)).half
    ensures Least(Zs(tiles)).Fin? && Greatest(Zs(tiles)).Fin? && Least(Zs(tiles)).half <= Greatest(Zs(tiles)).half
  {
    var xs, zs := Xs(tiles), Zs(tiles);
    assert Least(xs).half <= xs[0] <= Greatest(xs).half;
    assert Least(zs).half <= zs[0] <= Greatest(zs).half;
  }

  /**
   * With tiles loaded, a strip is a non-empty rectangle with finite bounds, so the
   * worker's loops end and lay out tiles; with none loaded its bounds are infinities
   * whose difference is NaN, and the worker answers at once with no tiles.
   */
  lemma StripBounds(tiles: seq<D.Tile>, side: Side)
    ensures var g := StripRegion(tiles, side);
      if tiles != [] then
        !Generator.NaNRegion(g.sx, g.sz, g.ex, g.ez) && Generator.LoopsEnd(g.sx, g.sz, g.ex, g.ez) &&
        NumLe(g.sx, g.ex) && NumLe(g.sz, g.ez)
      else
        Generator.NaNRegion(g.sx, g.sz, g.ex, g.ez)
  {
    if tiles != [] {
      FiniteSpan(tiles);
      var lx, gx := Least(Xs(tiles)).half, Greatest(Xs(tiles)).half;
      var lz, gz := Least(Zs(tiles)).half, Greatest(Zs(tiles)).half;
      match side
      case Left => FiniteRegion(lx - 32, lz, lx - 1, gz);
      case Right => FiniteRegion(gx + 1, lz, gx + 32, gz);
      case Top => FiniteRegion(lx, lz - 32, gx, lz - 1);
      case Bottom => FiniteRegion(lx, gz + 1, gx, gz + 32);
    }
  }

  /** A rectangle with finite, ordered bounds is laid out by loops that end. */
  lemma FiniteRegion(sx: int, sz: int, ex: int, ez: int)
    requires sx <= ex && sz <= ez
    ensures !Generator.NaNRegion(Fin(sx), Fin(sz), Fin(ex), Fin(ez))
    ensures Generator.LoopsEnd(Fin(sx), Fin(sz), Fin(ex), Fin(ez))
    ensures NumLe(Fin(sx), Fin(ex)) && NumLe(Fin(sz), Fin(ez))
  {
  }

  /**
   * The edge test of `moveTo` for a camera at (x, z): the strip beyond the left, right,
   * top or bottom edge, the first whose screen distance is small enough, or none.
   * `minScreen` and `maxScreen` are the screen positions of the tiles at the minimum
   * and maximum corner, or (-1, -1) where there is none.
   */
  function EdgeRequest(tiles: seq<D.Tile>, minScreen: Point, maxScreen: Point, x: real, z: real, cw: real, ch: real): (r: Option<Request>)
    ensures r.None? <==>
      !(Abs(minScreen.0 - x) < cw * 0.5) && !(Abs(maxScreen.0 - x) < cw * 1.5) &&
      !(Abs(minScreen.1 - z) < cw * 0.5) && !(Abs(maxScreen.1 - z) < ch + 0.5 * cw)
    ensures Abs(minScreen.0 - x) < cw * 0.5 ==> r == Some(Strip(tiles, Left))
    ensures !(Abs(minScreen.0 - x) < cw * 0.5) && Abs(maxScreen.0 - x) < cw * 1.5 ==>
      r == Some(Strip(tiles, Right))
    ensures (!(Abs(minScreen.0 - x) < cw * 0.5) && !(Abs(maxScreen.0 - x) < cw * 1.5) &&
             Abs(minScreen.1 - z) < cw * 0.5) ==>
      r == Some(Strip(tiles, Top))
    ensures (!(Abs(minScreen.0 - x) < cw * 0.5) && !(Abs(maxScreen.0 - x) < cw * 1.5) &&
             !(Abs(minScreen.1 - z) < cw * 0.5) && Abs(maxScreen.1 - z) < ch + 0.5 * cw) ==>
      r == Some(Strip(tiles, Bottom))
  {
    if Abs(minScreen.0 - x) < cw * 0.5 then Some(Strip(tiles, Left))
    else if Abs(maxScreen.0 - x) < cw * 1.5 then Some(Strip(tiles, Right))
    else if Abs(minScreen.1 - z) < cw * 0.5 then Some(Strip(tiles, Top))
    else if Abs(maxScreen.1 - z) < ch + 0.5 * cw then Some(Strip(tiles, Bottom))
    else None
  }

  /** The static state of `Camera`. */
  class Camera {
    var x: real
    var z: real
    var zoom: real
    var generatingTerrain: bool
    /** The page's `clientWidth` and `clientHeight`. */
    const clientWidth: real
    const clientHeight: real
    /**
     * The screen middle point of the tile at (MAX_X, WORLD_HEIGHT - WATER_LEVEL, MAX_Z)
     * at a zoom: the geometry of `getMiddlePoint`, an input of the model.
     */
    const corner: real -> Point

    constructor (clientWidth: real, clientHeight: real, corner: real -> Point)
      ensures x == 0.0 && z == 0.0 && zoom == 1.0 && !generatingTerrain
      ensures this.clientWidth == clientWidth && this.clientHeight == clientHeight && this.corner == corner
    {
      x, z, zoom := 0.0, 0.0, 1.0;
      generatingTerrain := false;
      this.clientWidth, this.clientHeight, this.corner := clientWidth, clientHeight, corner;
    }

    /** The largest x and z the clamp allows at a zoom. */
    function MaxX(zm: real): real
      reads this
    {
      corner(zm).0 - clientWidth
    }

    function MaxZ(zm: real): real
      reads this
    {
      corner(zm).1 - clientHeight
    }

    /** The position is what the clamp at zoom `zm` makes of it. */
    predicate FitsAt(zm: real)
      reads this
    {
      x == Clamp(x, MaxX(zm)) && z == Clamp(z, MaxZ(zm))
    }

    predicate Clamped()
      reads this
    {
      FitsAt(zoom)
    }

    /**
     * What `moveTo` does once its target is clamped to (cx, cz): nothing when the camera
     * is already there; otherwise the camera moves there with its zoom kept and, unless
     * terrain is already being generated, dispatches the edge request and raises
     * `generatingTerrain` exactly when there is one.
     */
    twostate predicate MovedTo(new request: Option<Request>, cx: real, cz: real, tiles: seq<D.Tile>, minScreen: Point, maxScreen: Point)
      reads this
    {
      if old(x) == cx && old(z) == cz then request.None? && unchanged(this)
      else x == cx && z == cz && zoom == old(zoom) && Dispatched(request, cx, cz, tiles, minScreen, maxScreen)
    }

    /**
     * The request a move to (cx, cz) makes: none while terrain is being generated;
     * otherwise the edge request, with `generatingTerrain` raised exactly when there is one.
     */
    twostate predicate Dispatched(new request: Option<Request>, cx: real, cz: real, tiles: seq<D.Tile>, minScreen: Point, maxScreen: Point)
      reads this
    {
      if old(generatingTerrain) then request.None? && generatingTerrain
      else request == EdgeRequest(tiles, minScreen, maxScreen, cx, cz, clientWidth, clientHeight) && generatingTerrain == request.Some?
    }

    /**
     * `Camera.moveTo(x, z)`: clamp the target; if that is where the camera is, return
     * false and change nothing. Otherwise, unless terrain is already being generated,
     * look for an edge to extend and raise `generatingTerrain` exactly when one is
     * found; then move and return true. Wherever it ends, the camera is clamped.
     */
    method MoveTo(nx: real, nz: real, tiles: seq<D.Tile>, minScreen: Point, maxScreen: Point)
      returns (moved: bool, request: Option<Request>)
      modifies this
      ensures var cx, cz := Clamp(nx, old(MaxX(zoom))), Clamp(nz, old(MaxZ(zoom)));
        MovedTo(request, cx, cz, tiles, minScreen, maxScreen) && moved == !(old(x) == cx && old(z) == cz)
      ensures x == Clamp(nx, old(MaxX(zoom))) && z == Clamp(nz, old(MaxZ(zoom))) && Clamped()
    {
      var cx := Clamp(nx, MaxX(zoom));
      var cz := Clamp(nz, MaxZ(zoom));
      ClampIdempotent(nx, MaxX(zoom));
      ClampIdempotent(nz, MaxZ(zoom));
      if x == cx && z == cz {
        return false, None;
      }
      request := None;
      if !generatingTerrain {
        request := EdgeRequest(tiles, minScreen, maxScreen, cx, cz, clientWidth, clientHeight);
        generatingTerrain := request.Some?;
      }
      x, z := cx, cz;
      moved := true;
    }

    /** `Camera.moveBy(dx, dz)`; the redraw and cursor update it triggers are not modelled. */
    method MoveBy(dx: real, dz: real, tiles: seq<D.Tile>, minScreen: Point, maxScreen: Point)
      returns (request: Option<Request>)
      modifies this
      ensures zoom == old(zoom) && x == Clamp(old(x) + dx, old(MaxX(zoom))) && z == Clamp(old(z) + dz, old(MaxZ(zoom)))
      ensures Clamped()
      ensures old(Clamped()) && dx == 0.0 && dz == 0.0 ==> unchanged(this) && request.None?
      ensures request.Some? ==> !old(generatingTerrain) && generatingTerrain
      ensures MovedTo(request, Clamp(old(x) + dx, old(MaxX(zoom))), Clamp(old(z) + dz, old(MaxZ(zoom))), tiles, minScreen, maxScreen)
    {
      var moved;
      moved, request := MoveTo(x + dx, z + dz, tiles, minScreen, maxScreen);
    }

    /**
     * The `zoom` setter: take the new zoom unless the position would not be clamped at
     * it; then put the old zoom back and move by nothing. The camera stays clamped.
     */
    method SetZoom(value: real, tiles: seq<D.Tile>, minScreen: Point, maxScreen: Point)
      returns (request: Option<Request>)
      modifies this
      ensures old(FitsAt(value)) ==>
        zoom == value && x == old(x) && z == old(z) && generatingTerrain == old(generatingTerrain) && request.None?
      ensures !old(FitsAt(value)) ==> zoom == old(zoom) && x == Clamp(old(x), old(MaxX(zoom))) && z == Clamp(old(z), old(MaxZ(zoom)))
      ensures !old(FitsAt(value)) && old(Clamped()) ==> unchanged(this) && request.None?
      ensures !old(FitsAt(value)) ==>
        MovedTo(request, Clamp(old(x), old(MaxX(zoom))), Clamp(old(z), old(MaxZ(zoom))), tiles, minScreen, maxScreen)
      ensures Clamped()
    {
      var oldValue := zoom;
      zoom := value;
      if x != Clamp(x, MaxX(zoom)) || z != Clamp(z, MaxZ(zoom)) {
        zoom := oldValue;
        request := MoveBy(0.0, 0.0, tiles, minScreen, maxScreen);
        return;
      }
      request := None;
    }

    /** `Camera.zoomOut()`: ten percent smaller, never below MIN_ZOOM. */
    method ZoomOut(tiles: seq<D.Tile>, minScreen: Point, maxScreen: Point) returns (request: Option<Request>)
      modifies this
      ensures zoom <= old(zoom) && (old(zoom) >= MIN_ZOOM ==> zoom >= MIN_ZOOM)
      ensures MIN_ZOOM <= old(zoom) <= MAX_ZOOM ==> MIN_ZOOM <= zoom <= MAX_ZOOM
      ensures old(zoom) > MIN_ZOOM && old(FitsAt(if zoom * 0.9 < MIN_ZOOM then MIN_ZOOM else zoom * 0.9)) ==> zoom < old(zoom)
      ensures old(Clamped()) ==> Clamped()
      ensures old(zoom) <= MIN_ZOOM ==> request.None? && unchanged(this)
      ensures var next := if old(zoom) * 0.9 < MIN_ZOOM then MIN_ZOOM else old(zoom) * 0.9;
        old(zoom) > MIN_ZOOM ==>
          if old(FitsAt(next)) then
            zoom == next && x == old(x) && z == old(z) && generatingTerrain == old(generatingTerrain) && request.None?
          else
            MovedTo(request, Clamp(old(x), old(MaxX(zoom))), Clamp(old(z), old(MaxZ(zoom))), tiles, minScreen, maxScreen)
    {
      if zoom <= MIN_ZOOM {
        return None;
      }
      var next := if zoom * 0.9 < MIN_ZOOM then MIN_ZOOM else zoom * 0.9;
      request := SetZoom(next, tiles, minScreen, maxScreen);
    }

    /** `Camera.zoomIn()`: ten percent larger, never above MAX_ZOOM. */
    method ZoomIn(tiles: seq<D.Tile>, minScreen: Point, maxScreen: Point) returns (request: Option<Request>)
      modifies this
      ensures (old(zoom) >= 0.0 ==> zoom >= old(zoom)) && (old(zoom) <= MAX_ZOOM ==> zoom <= MAX_ZOOM)
      ensures MIN_ZOOM <= old(zoom) <= MAX_ZOOM ==> MIN_ZOOM <= zoom <= MAX_ZOOM
      ensures MIN_ZOOM <= old(zoom) < MAX_ZOOM && old(FitsAt(if MAX_ZOOM < zoom * 1.1 then MAX_ZOOM else zoom * 1.1)) ==> zoom > old(zoom)
      ensures old(Clamped()) ==> Clamped()
      ensures old(zoom) >= MAX_ZOOM ==> request.None? && unchanged(this)
      ensures var next := if MAX_ZOOM < old(zoom) * 1.1 then MAX_ZOOM else old(zoom) * 1.1;
        old(zoom) < MAX_ZOOM ==>
          if old(FitsAt(next)) then
            zoom == next && x == old(x) && z == old(z) && generatingTerrain == old(generatingTerrain) && request.None?
          else
            MovedTo(request, Clamp(old(x), old(MaxX(zoom))), Clamp(old(z), old(MaxZ(zoom))), tiles, minScreen, maxScreen)
    {
      if zoom >= MAX_ZOOM {
        return None;
      }
      var next := if MAX_ZOOM < zoom * 1.1 then MAX_ZOOM else zoom * 1.1;
      request := SetZoom(next, tiles, minScreen, maxScreen);
    }
  }
}
