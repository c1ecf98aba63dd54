/**
 * The superseded world generator of the page (resources/World.js): a grid of random
 * whole heights on the staggered lattice, five box-filter smoothings, five water
 * passes that raise each water tile to the highest water around it, one round of
 * dirt, and the two sorts that order the tiles for drawing.
 *
 * Its tiles are those of resources/Drawable.js: three types only, and the default
 * type read off the height against this generator's own `WATER_LEVEL` of 14.
 * Coordinates are doubled as everywhere in the model; every height the generator
 * produces is a whole number, so heights are plain integers here.
 */
module LegacyWorld {
  import opened Wrappers
  import opened Lattice
  import Terrain
  import Sorting

  const WATER_LEVEL: int := 14
  const WORLD_HEIGHT: int := 32

  /** The keys of `Images.Tiles` in resources/Images.js. */
  datatype Kind = Grass | Dirt | Water

  datatype Tile = Tile(hx: int, y: int, hz: int, kind: Kind)

  /**
   * `new Tile(x, y, z, type)`: without a type, WATER at or below the water level and
   * GRASS above it.
   */
  function NewTile(hx: int, y: int, hz: int, given: Option<Kind>): (t: Tile)
    ensures t.hx == hx && t.y == y && t.hz == hz
    ensures given.Some? ==> t.kind == given.value
    ensures given.None? ==> Typed(t)
  {
    var kind := if given.Some? then given.value else if y <= WATER_LEVEL then Water else Grass;
    Tile(hx, y, hz, kind)
  }

  /** The type a tile created without one gets. */
  predicate Typed(t: Tile) {
    t.kind == if t.y <= WATER_LEVEL then Water else Grass
  }

  predicate AllTyped(tiles: seq<Tile>) {
    forall i :: 0 <= i < |tiles| ==> Typed(tiles[i])
  }

  predicate Within(tiles: seq<Tile>, lo: int, hi: int) {
    forall i :: 0 <= i < |tiles| ==> lo <= tiles[i].y <= hi
  }

  /* ---------- Array helpers ---------- */

  /** `Array.prototype.filter`: the elements satisfying P, in order. */
  function Filter<T(!new)>(s: seq<T>, P: T -> bool): (r: seq<T>)
    ensures |r| <= |s|
  {
    if s == [] then [] else Filter(s[..|s| - 1], P) + (if P(s[|s| - 1]) then [s[|s| - 1]] else [])
  }

  /** The filtered list holds exactly the elements that pass. */
  lemma {:induction false} FilterMembers<T(!new)>(s: seq<T>, P: T -> bool)
    ensures forall x :: x in Filter(s, P) <==> x in s && P(x)
    ensures forall i :: 0 <= i < |Filter(s, P)| ==> P(Filter(s, P)[i])
  {
    if s != [] {
      FilterMembers(s[..|s| - 1], P);
      assert s == s[..|s| - 1] + [s[|s| - 1]];
    }
  }

  /** Filtering by a predicate and by its negation splits the list. */
  lemma {:induction false} FilterSplit<T(!new)>(s: seq<T>, P: T -> bool, Q: T -> bool)
    requires forall x :: Q(x) == !P(x)
    ensures |Filter(s, P)| + |Filter(s, Q)| == |s|
  {
    if s != [] {
      FilterSplit(s[..|s| - 1], P, Q);
    }
  }

  /** Filtering a list whose every element passes returns it unchanged. */
  lemma {:induction false} FilterAll<T(!new)>(s: seq<T>, P: T -> bool)
    requires forall i :: 0 <= i < |s| ==> P(s[i])
    ensures Filter(s, P) == s
  {
    if s != [] {
      FilterAll(s[..|s| - 1], P);
      assert s == s[..|s| - 1] + [s[|s| - 1]];
    }
  }

  /** Filtering a list none of whose elements passes leaves nothing. */
  lemma {:induction false} FilterNone<T(!new)>(s: seq<T>, P: T -> bool)
    requires forall i :: 0 <= i < |s| ==> !P(s[i])
    ensures Filter(s, P) == []
  {
    if s != [] {
      FilterNone(s[..|s| - 1], P);
    }
  }

  /** `neighbours.reduce((t, a) => t + a.y, 0)` */
  function SumY(s: seq<Tile>): int {
    if s == [] then 0 else SumY(s[..|s| - 1]) + s[|s| - 1].y
  }

  /** `Math.max(...neighbours.map(t => t.y))` for a list that is never empty. */
  function MaxY(s: seq<Tile>): (m: int)
    requires |s| > 0
    ensures forall i :: 0 <= i < |s| ==> s[i].y <= m
    ensures exists i :: 0 <= i < |s| && s[i].y == m
  {
    if |s| == 1 then s[0].y
    else
      var m := MaxY(s[..|s| - 1]);
      assert forall i :: 0 <= i < |s| - 1 ==> s[i] == s[..|s| - 1][i];
      if s[|s| - 1].y > m then s[|s| - 1].y else m
  }

  /* ---------- The grid ---------- */

  /**
   * `Math.round(Math.random() * WORLD_HEIGHT)` for the k-th tile created: the random
   * source is an input of the model.
   */
  ghost predicate DrawsInRange(draw: nat -> nat) {
    forall k: nat :: draw(k) <= WORLD_HEIGHT
  }

  /** The tiles created for the visited points `ps` (pairs (z, x)), the k-th with draw k. */
  function Place(ps: seq<(int, int)>, draw: nat -> nat): (tiles: seq<Tile>)
    ensures |tiles| == |ps|
    ensures forall k :: 0 <= k < |ps| ==> tiles[k] == NewTile(ps[k].1, draw(k), ps[k].0, None)
  {
    seq(|ps|, k requires 0 <= k < |ps| => NewTile(ps[k].1, draw(k), ps[k].0, None))
  }

  /** The points of the grid loops: z and x from -1 to height and width, on 0.5 steps. */
  function GridPoints(width: int, height: int): seq<(int, int)> {
    Scan(-2, 2 * height, -2, 2 * width)
  }

  lemma PlaceAppend(ps: seq<(int, int)>, p: (int, int), draw: nat -> nat)
    ensures Place(ps + [p], draw) == Place(ps, draw) + [NewTile(p.1, draw(|ps|), p.0, None)]
  {
  }

  /** One pass of the inner loop, for the row `hz`. */
  method GridRow(tiles: seq<Tile>, ghost pre: seq<(int, int)>, hz: int, width: int, draw: nat -> nat)
    returns (tiles': seq<Tile>)
    requires tiles == Place(pre, draw)
    ensures tiles' == Place(pre + Row(hz, -2, 2 * width), draw)
  {
    tiles' := tiles;
    var hx := -2;
    assert pre + Row(hz, -2, -3) == pre;
    while hx <= 2 * width
      invariant -2 <= hx <= 2 * width + 1 || (hx == -2 && 2 * width < -2)
      invariant tiles' == Place(pre + Row(hz, -2, hx - 1), draw)
      decreases 2 * width - hx
    {
      ghost var ps := pre + Row(hz, -2, hx - 1);
      // a point where exactly one coordinate is a half is skipped
      if Terrain.OnLattice(hx, hz) {
        var t := NewTile(hx, draw(|tiles'|), hz, None);
        PlaceAppend(ps, (hz, hx), draw);
        tiles' := tiles' + [t];
        assert Terrain.OnLattice(hz, hx);
        assert ps + [(hz, hx)] == pre + Row(hz, -2, hx);
      } else {
        assert !Terrain.OnLattice(hz, hx);
        assert ps == pre + Row(hz, -2, hx);
      }
      hx := hx + 1;
    }
    if 2 * width < -2 {
      assert Row(hz, -2, 2 * width) == [];
    }
  }

  /** The nested grid loops of `World.generate`. */
  method GenerateGrid(width: int, height: int, draw: nat -> nat) returns (tiles: seq<Tile>)
    ensures tiles == Place(GridPoints(width, height), draw)
  {
    tiles := [];
    var hz := -2;
    while hz <= 2 * height
      invariant -2 <= hz <= 2 * height + 1 || (hz == -2 && 2 * height < -2)
      invariant tiles == Place(Scan(-2, hz - 1, -2, 2 * width), draw)
      decreases 2 * height - hz
    {
      tiles := GridRow(tiles, Scan(-2, hz - 1, -2, 2 * width), hz, width, draw);
      assert Scan(-2, hz, -2, 2 * width) == Scan(-2, hz - 1, -2, 2 * width) + Row(hz, -2, 2 * width);
      hz := hz + 1;
    }
    if 2 * height < -2 {
      assert Scan(-2, 2 * height, -2, 2 * width) == [];
    }
  }

  /**
   * The grid has one tile on every point of [-1, width] x [-1, height] whose
   * coordinates are both whole or both halves, and no other; each is typed by its
   * height, which lies in 0..WORLD_HEIGHT.
   */
  lemma GridCovers(width: int, height: int, draw: nat -> nat)
    requires DrawsInRange(draw)
    ensures var g := Place(GridPoints(width, height), draw);
      AllTyped(g) && Within(g, 0, WORLD_HEIGHT) &&
      (forall k :: 0 <= k < |g| ==>
        -2 <= g[k].hx <= 2 * width && -2 <= g[k].hz <= 2 * height && Terrain.OnLattice(g[k].hx, g[k].hz)) &&
      (forall j, k :: 0 <= j < k < |g| ==> (g[j].hx, g[j].hz) != (g[k].hx, g[k].hz))
    ensures forall hx, hz :: -2 <= hx <= 2 * width && -2 <= hz <= 2 * height && Terrain.OnLattice(hx, hz) ==>
      exists k :: 0 <= k < |GridPoints(width, height)| && Place(GridPoints(width, height), draw)[k].hx == hx &&
        Place(GridPoints(width, height), draw)[k].hz == hz
  {
    var ps := GridPoints(width, height);
    var g := Place(ps, draw);
    ScanMembers(-2, 2 * height, -2, 2 * width);
    ScanIncreasing(-2, 2 * height, -2, 2 * width);
    forall k | 0 <= k < |g|
      ensures -2 <= g[k].hx <= 2 * width && -2 <= g[k].hz <= 2 * height && Terrain.OnLattice(g[k].hx, g[k].hz)
    {
      assert ps[k] in ps;
      assert Terrain.OnLattice(ps[k].0, ps[k].1);
    }
    forall j, k | 0 <= j < k < |g|
      ensures (g[j].hx, g[j].hz) != (g[k].hx, g[k].hz)
    {
      IncreasingDistinct(ps, j, k);
    }
    forall hx, hz | -2 <= hx <= 2 * width && -2 <= hz <= 2 * height && Terrain.OnLattice(hx, hz)
      ensures exists k :: 0 <= k < |ps| && g[k].hx == hx && g[k].hz == hz
    {
      assert Terrain.OnLattice(hz, hx);
      assert (hz, hx) in ps;
      var k :| 0 <= k < |ps| && ps[k] == (hz, hx);
      assert g[k].hx == hx && g[k].hz == hz;
    }
  }

  /* ---------- #interpolate ---------- */

  /** `t.x >= c.x - 1 && t.x <= c.x + 1 && t.z >= c.z - 1 && t.z <= c.z + 1` */
  predicate InBox(t: Tile, c: Tile) {
    c.hx - 2 <= t.hx <= c.hx + 2 && c.hz - 2 <= t.hz <= c.hz + 2
  }

  /** The tiles of the ±1 box around `c`, `c` itself included. */
  function Box(tiles: seq<Tile>, c: Tile): (r: seq<Tile>)
    ensures c in tiles ==> |r| > 0
  {
    var r := Filter(tiles, (t: Tile) => InBox(t, c));
    FilterMembers(tiles, (t: Tile) => InBox(t, c));
    assert c in tiles ==> c in r;
    r
  }

  lemma BoxMembers(tiles: seq<Tile>, c: Tile)
    ensures forall t :: t in Box(tiles, c) <==> t in tiles && InBox(t, c)
  {
    FilterMembers(tiles, (t: Tile) => InBox(t, c));
  }

  lemma {:induction false} SumBetween(s: seq<Tile>, lo: int, hi: int)
    requires Within(s, lo, hi)
    ensures lo * |s| <= SumY(s) <= hi * |s|
  {
    if s != [] {
      var front := s[..|s| - 1];
      assert forall i :: 0 <= i < |front| ==> front[i] == s[i];
      SumBetween(front, lo, hi);
      assert lo * |s| == lo * |front| + lo;
      assert hi * |s| == hi * |front| + hi;
    }
  }

  lemma MulMono(q: int, a: int, b: int)
    requires q > 0 && a <= b
    ensures q * a <= q * b
  {
  }

  /** `Math.round(p / q)` of a quotient between lo and hi is between them too. */
  lemma RoundDivBetween(p: int, q: int, lo: int, hi: int)
    requires q > 0 && lo * q <= p <= hi * q
    ensures lo <= Terrain.RoundDiv(p, q) <= hi
  {
    var r := Terrain.RoundDiv(p, q);
    if r > hi {
      MulMono(q, hi + 1, r);
    }
    if r < lo {
      MulMono(q, r + 1, lo);
    }
  }

  /** The rounded mean of a non-empty list of heights lies between its bounds. */
  lemma MeanBetween(s: seq<Tile>, lo: int, hi: int)
    requires |s| > 0 && Within(s, lo, hi)
    ensures lo <= Terrain.RoundDiv(SumY(s), |s|) <= hi
  {
    SumBetween(s, lo, hi);
    RoundDivBetween(SumY(s), |s|, lo, hi);
  }

  /** The tile `#interpolate` makes of `c`: the rounded mean height of its box, retyped. */
  function Smoothed(tiles: seq<Tile>, c: Tile): (t: Tile)
    requires c in tiles
    ensures t.hx == c.hx && t.hz == c.hz && Typed(t)
  {
    var n := Box(tiles, c);
    NewTile(c.hx, Terrain.RoundDiv(SumY(n), |n|), c.hz, None)
  }

  /** `World.#interpolate(tiles)` as a value. */
  function Interpolated(tiles: seq<Tile>): (r: seq<Tile>)
    ensures |r| == |tiles|
    ensures AllTyped(r)
    ensures forall i :: 0 <= i < |r| ==> r[i].hx == tiles[i].hx && r[i].hz == tiles[i].hz
  {
    seq(|tiles|, i requires 0 <= i < |tiles| => Smoothed(tiles, tiles[i]))
  }

  /** `World.#interpolate(tiles)`: the `forEach` that pushes one smoothed tile per tile. */
  method Interpolate(tiles: seq<Tile>) returns (r: seq<Tile>)
    ensures r == Interpolated(tiles)
  {
    r := [];
    var i := 0;
    while i < |tiles|
      invariant 0 <= i <= |tiles|
      invariant |r| == i && forall k :: 0 <= k < i ==> r[k] == Smoothed(tiles, tiles[k])
    {
      var tile := tiles[i];
      var neighbours := Box(tiles, tile);
      var average := Terrain.RoundDiv(SumY(neighbours), |neighbours|);
      r := r + [NewTile(tile.hx, average, tile.hz, None)];
      i := i + 1;
    }
    assert r == Interpolated(tiles);
  }

  /** A sub-list of a list of tiles within bounds is within them. */
  lemma WithinPart(part: seq<Tile>, tiles: seq<Tile>, lo: int, hi: int)
    requires Within(tiles, lo, hi) && forall t :: t in part ==> t in tiles
    ensures Within(part, lo, hi)
  {
    forall j | 0 <= j < |part|
      ensures lo <= part[j].y <= hi
    {
      assert part[j] in part;
      var k :| 0 <= k < |tiles| && tiles[k] == part[j];
    }
  }

  /**
   * Smoothing never leaves the range of the heights it starts from: each new height
   * is a mean of heights of the list. A flat world stays flat.
   */
  lemma InterpolatedWithin(tiles: seq<Tile>, lo: int, hi: int)
    requires Within(tiles, lo, hi)
    ensures Within(Interpolated(tiles), lo, hi)
  {
    var r := Interpolated(tiles);
    forall i | 0 <= i < |r|
      ensures lo <= r[i].y <= hi
    {
      assert tiles[i] in tiles;
      var n := Box(tiles, tiles[i]);
      BoxMembers(tiles, tiles[i]);
      WithinPart(n, tiles, lo, hi);
      MeanBetween(n, lo, hi);
    }
  }

  /** Every tile keeps its own height in the mean: its box holds the tile itself. */
  lemma SmoothedCountsItself(tiles: seq<Tile>, i: int)
    requires 0 <= i < |tiles|
    ensures tiles[i] in Box(tiles, tiles[i])
  {
    BoxMembers(tiles, tiles[i]);
  }

  /* ---------- #interpolateWater and the water passes ---------- */

  predicate IsWater(t: Tile) {
    t.kind == Water
  }

  predicate NotWater(t: Tile) {
    t.kind != Water
  }

  /** `tiles.filter(t => t.type == "WATER")` */
  function WaterOf(tiles: seq<Tile>): seq<Tile> {
    Filter(tiles, IsWater)
  }

  /** `tiles.filter(t => t.type != "WATER")` */
  function Others(tiles: seq<Tile>): seq<Tile> {
    Filter(tiles, NotWater)
  }

  /** The tile `#interpolateWater` makes of `c`: the highest tile of its box, retyped. */
  function Raised(tiles: seq<Tile>, c: Tile): (t: Tile)
    requires c in tiles
    ensures t.hx == c.hx && t.hz == c.hz && Typed(t)
  {
    NewTile(c.hx, MaxY(Box(tiles, c)), c.hz, None)
  }

  /** `World.#interpolateWater(tiles)` as a value. */
  function InterpolatedWater(tiles: seq<Tile>): (r: seq<Tile>)
    ensures |r| == |WaterOf(tiles)|
    ensures forall i :: 0 <= i < |r| ==> r[i].hx == WaterOf(tiles)[i].hx && r[i].hz == WaterOf(tiles)[i].hz
  {
    var w := WaterOf(tiles);
    FilterMembers(tiles, IsWater);
    assert forall i :: 0 <= i < |w| ==> w[i] in w;
    seq(|w|, i requires 0 <= i < |w| => Raised(tiles, w[i]))
  }

  /** `World.#interpolateWater(tiles)`: the `forEach` over the water tiles. */
  method InterpolateWater(tiles: seq<Tile>) returns (r: seq<Tile>)
    ensures r == InterpolatedWater(tiles)
  {
    var water := WaterOf(tiles);
    FilterMembers(tiles, IsWater);
    r := [];
    var i := 0;
    while i < |water|
      invariant 0 <= i <= |water|
      invariant |r| == i && forall k :: 0 <= k < i ==> water[k] in tiles && r[k] == Raised(tiles, water[k])
    {
      var tile := water[i];
      assert tile in water;
      var neighbours := Box(tiles, tile);
      var height := MaxY(neighbours);
      r := r + [NewTile(tile.hx, height, tile.hz, None)];
      i := i + 1;
    }
    assert r == InterpolatedWater(tiles);
  }

  /**
   * A water tile is raised to the highest tile around it, so it never goes down; when
   * every input tile is at or below the water level it stays WATER.
   */
  lemma RaisedNeverLower(tiles: seq<Tile>, i: int)
    requires 0 <= i < |WaterOf(tiles)|
    ensures var w := WaterOf(tiles)[i];
      w in tiles && InterpolatedWater(tiles)[i].y >= w.y &&
      exists k :: 0 <= k < |tiles| && InBox(tiles[k], w) && InterpolatedWater(tiles)[i].y == tiles[k].y
    ensures (forall k :: 0 <= k < |tiles| ==> tiles[k].y <= WATER_LEVEL) ==> InterpolatedWater(tiles)[i].kind == Water
  {
    var w := WaterOf(tiles)[i];
    assert w in WaterOf(tiles);
    FilterMembers(tiles, IsWater);
    var n := Box(tiles, w);
    BoxMembers(tiles, w);
    assert w in n;
    var j :| 0 <= j < |n| && n[j].y == MaxY(n);
    assert n[j] in n;
    var k :| 0 <= k < |tiles| && tiles[k] == n[j];
    if forall k :: 0 <= k < |tiles| ==> tiles[k].y <= WATER_LEVEL {
      assert MaxY(n) <= WATER_LEVEL;
    }
  }

  /** One pass of the loop in `generate`: the water is taken out and re-appended raised. */
  function WaterPass(tiles: seq<Tile>): seq<Tile> {
    Others(tiles) + InterpolatedWater(WaterOf(tiles))
  }

  /** Filtering the water out of a list of water tiles keeps all of them. */
  lemma WaterOfWater(tiles: seq<Tile>)
    ensures WaterOf(WaterOf(tiles)) == WaterOf(tiles)
  {
    FilterMembers(tiles, IsWater);
    FilterAll(WaterOf(tiles), IsWater);
  }

  /** A water pass keeps the number of tiles. */
  lemma WaterPassKeepsCount(tiles: seq<Tile>)
    ensures |WaterPass(tiles)| == |tiles|
  {
    WaterOfWater(tiles);
    FilterSplit(tiles, IsWater, NotWater);
  }

  /**
   * On tiles typed by their height, a water pass keeps every tile typed and keeps the
   * number of water tiles: the water it re-appends is all still WATER.
   */
  lemma WaterPassKeepsWater(tiles: seq<Tile>)
    requires AllTyped(tiles)
    ensures AllTyped(WaterPass(tiles))
    ensures |WaterOf(WaterPass(tiles))| == |WaterOf(tiles)|
  {
    var w := WaterOf(tiles);
    var o, r := Others(tiles), InterpolatedWater(w);
    FilterMembers(tiles, IsWater);
    FilterMembers(tiles, NotWater);
    WaterOfWater(tiles);
    forall k | 0 <= k < |w|
      ensures w[k].y <= WATER_LEVEL
    {
      assert w[k] in w;
    }
    forall i | 0 <= i < |r|
      ensures Typed(r[i]) && r[i].kind == Water
    {
      RaisedNeverLower(w, i);
    }
    forall i | 0 <= i < |o|
      ensures Typed(o[i])
    {
      assert o[i] in o;
    }
    assert WaterPass(tiles) == o + r;
    FilterAll(r, IsWater);
    FilterNone(o, IsWater);
    FilterAppend(o, r, IsWater);
  }

  lemma {:induction false} FilterAppend<T(!new)>(a: seq<T>, b: seq<T>, P: T -> bool)
    ensures Filter(a + b, P) == Filter(a, P) + Filter(b, P)
    decreases |b|
  {
    if b != [] {
      var b' := b[..|b| - 1];
      FilterAppend(a, b', P);
      assert (a + b)[..|a + b| - 1] == a + b';
      assert (a + b)[|a + b| - 1] == b[|b| - 1];
    } else {
      assert a + b == a;
    }
  }

  /** Heights stay within a range through a water pass: each is one of the old heights. */
  lemma WaterPassWithin(tiles: seq<Tile>, lo: int, hi: int)
    requires Within(tiles, lo, hi)
    ensures Within(WaterPass(tiles), lo, hi)
  {
    var w := WaterOf(tiles);
    var o, r := Others(tiles), InterpolatedWater(w);
    FilterMembers(tiles, IsWater);
    FilterMembers(tiles, NotWater);
    WithinPart(o, tiles, lo, hi);
    WithinPart(w, tiles, lo, hi);
    forall i | 0 <= i < |r|
      ensures lo <= r[i].y <= hi
    {
      RaisedNeverLower(w, i);
    }
  }

  /* ---------- #generateDirt ---------- */

  /**
   * `tiles.filter(x => x.imagePath == Images.Tiles.DIRT).some(...)`: a DIRT tile sits at
   * the same x, y and z as `c` (the three image paths differ, so the image names the type).
   */
  predicate HasDirtAt(tiles: seq<Tile>, c: Tile) {
    exists i :: 0 <= i < |tiles| && tiles[i].kind == Dirt && tiles[i].hx == c.hx && tiles[i].y == c.y && tiles[i].hz == c.hz
  }

  /**
   * `t.y <= tile.y - 2 && (t.x == tile.x + 0.5 || t.x == tile.x - 0.5 || t.z == tile.z - 0.5 ||
   * t.z == tile.z + 0.5)`: a tile at least two lower whose x or whose z is half a step off,
   * the other coordinate being anything.
   */
  predicate Drop(t: Tile, c: Tile) {
    t.y <= c.y - 2 && (t.hx == c.hx + 1 || t.hx == c.hx - 1 || t.hz == c.hz - 1 || t.hz == c.hz + 1)
  }

  predicate Drops(tiles: seq<Tile>, c: Tile) {
    exists i :: 0 <= i < |tiles| && Drop(tiles[i], c)
  }

  /** `c` gets a dirt tile: no dirt at its place yet, and some tile lies low beside it. */
  predicate Emits(tiles: seq<Tile>, c: Tile) {
    !HasDirtAt(tiles, c) && Drops(tiles, c)
  }

  /** `new Tile(tile.x, tile.y - 1, tile.z, "DIRT")` */
  function DirtFor(c: Tile): (d: Tile)
    ensures d.hx == c.hx && d.hz == c.hz && d.y == c.y - 1 && d.kind == Dirt
  {
    NewTile(c.hx, c.y - 1, c.hz, Some(Dirt))
  }

  /**
   * The dirt made for the first `n` tiles, in their order: one dirt tile under each tile
   * that emits, and nothing else.
   */
  function DirtOf(tiles: seq<Tile>, n: nat): (d: seq<Tile>)
    requires n <= |tiles|
    ensures |d| <= n
  {
    if n == 0 then []
    else
      var front := DirtOf(tiles, n - 1);
      var c := tiles[n - 1];
      front + (if Emits(tiles, c) then [DirtFor(c)] else [])
  }

  /** The indices of the first `n` tiles that emit, in order. */
  function Emitters(tiles: seq<Tile>, n: nat): (o: seq<nat>)
    requires n <= |tiles|
    ensures forall k :: 0 <= k < |o| ==> o[k] < n
  {
    if n == 0 then [] else Emitters(tiles, n - 1) + (if Emits(tiles, tiles[n - 1]) then [n - 1] else [])
  }

  /** The k-th dirt tile lies under the k-th tile that emits. */
  lemma {:induction false} DirtOfSound(tiles: seq<Tile>, n: nat)
    requires n <= |tiles|
    ensures var o := Emitters(tiles, n);
      |DirtOf(tiles, n)| == |o| &&
      forall k :: 0 <= k < |o| ==> Emits(tiles, tiles[o[k]]) && DirtOf(tiles, n)[k] == DirtFor(tiles[o[k]])
  {
    if n > 0 {
      DirtOfSound(tiles, n - 1);
    }
  }

  /** Each tile that emits has its dirt tile. */
  lemma {:induction false} DirtOfComplete(tiles: seq<Tile>, n: nat)
    requires n <= |tiles|
    ensures forall i :: 0 <= i < n && Emits(tiles, tiles[i]) ==> DirtFor(tiles[i]) in DirtOf(tiles, n)
  {
    if n > 0 {
      DirtOfComplete(tiles, n - 1);
      var front, d := DirtOf(tiles, n - 1), DirtOf(tiles, n);
      assert forall t :: t in front ==> t in d;
    }
  }

  /** `World.#generateDirt(tiles)`: the `forEach` that pushes the dirt. */
  method GenerateDirt(tiles: seq<Tile>) returns (d: seq<Tile>)
    ensures d == DirtOf(tiles, |tiles|)
  {
    d := [];
    var i := 0;
    while i < |tiles|
      invariant 0 <= i <= |tiles| && d == DirtOf(tiles, i)
    {
      var tile := tiles[i];
      if !HasDirtAt(tiles, tile) {
        if Drops(tiles, tile) {
          d := d + [DirtFor(tile)];
        }
      }
      i := i + 1;
    }
  }

  /**
   * On generated terrain (every tile typed by its height, so none is DIRT) the first
   * test never skips a tile: a tile gets dirt exactly when a lower tile lies beside it.
   */
  lemma DirtOfTyped(tiles: seq<Tile>, i: int)
    requires AllTyped(tiles) && 0 <= i < |tiles|
    ensures Emits(tiles, tiles[i]) <==> Drops(tiles, tiles[i])
  {
  }

  /**
   * A dirt tile lies one below a tile that has a tile at least two lower, so on terrain
   * within lo..hi the dirt is within lo + 1..hi - 1.
   */
  lemma DirtWithin(tiles: seq<Tile>, lo: int, hi: int)
    requires Within(tiles, lo, hi)
    ensures Within(DirtOf(tiles, |tiles|), lo + 1, hi - 1)
  {
    var d := DirtOf(tiles, |tiles|);
    DirtOfSound(tiles, |tiles|);
    forall j | 0 <= j < |d|
      ensures lo + 1 <= d[j].y <= hi - 1
    {
      var i := Emitters(tiles, |tiles|)[j];
      var k :| 0 <= k < |tiles| && Drop(tiles[k], tiles[i]);
    }
  }

  /**
   * The neighbour test looks at the x or the z coordinate alone: a tile ten units
   * away along z, half a step off in x and five lower, still puts dirt under the tile
   * at the origin.
   */
  lemma DirtIgnoresDistance()
    ensures DirtOf([Tile(0, 10, 0, Grass), Tile(1, 5, 20, Water)], 2) == [Tile(0, 9, 0, Dirt)]
  {
    var tiles := [Tile(0, 10, 0, Grass), Tile(1, 5, 20, Water)];
    assert Drop(tiles[1], tiles[0]);
    assert !Drops(tiles, tiles[1]);
  }

  /* ---------- generate ---------- */

  /** The sort keys `a.y` and `a.z` (z doubled, which keeps its order). */
  function YKey(t: Tile): Terrain.Height {
    Terrain.Units(t.y)
  }

  function ZKey(t: Tile): Terrain.Height {
    Terrain.Units(t.hz)
  }

  /** `tiles.sort((a, b) => a.y - b.y); tiles.sort((a, b) => a.z - b.z)` */
  function Ordered(tiles: seq<Tile>): seq<Tile> {
    Sorting.SortBy(Sorting.SortBy(tiles, YKey), ZKey)
  }

  /** `n` rounds of `#interpolate`. */
  function Smoothings(tiles: seq<Tile>, n: nat): (r: seq<Tile>)
    ensures |r| == |tiles|
    ensures n > 0 ==> AllTyped(r)
  {
    if n == 0 then tiles else Interpolated(Smoothings(tiles, n - 1))
  }

  /** `n` water passes. */
  function WaterPasses(tiles: seq<Tile>, n: nat): (r: seq<Tile>)
    ensures |r| == |tiles|
  {
    if n == 0 then tiles
    else
      var t := WaterPasses(tiles, n - 1);
      WaterPassKeepsCount(t);
      WaterPass(t)
  }

  /** The terrain before the sorts: grid, five smoothings, five water passes. */
  function Terrain5(width: int, height: int, draw: nat -> nat): seq<Tile> {
    WaterPasses(Smoothings(Place(GridPoints(width, height), draw), 5), 5)
  }

  /** `World.generate(width, height)` as a value: dirt put in front, then the sorts. */
  function Generated(width: int, height: int, draw: nat -> nat): seq<Tile> {
    var tiles := Terrain5(width, height, draw);
    Ordered(DirtOf(tiles, |tiles|) + tiles)
  }

  /** `World.generate(width, height)`, with the random heights drawn from `draw`. */
  method Generate(width: int, height: int, draw: nat -> nat) returns (tiles: seq<Tile>)
    ensures tiles == Generated(width, height, draw)
  {
    tiles := GenerateGrid(width, height, draw);
    ghost var grid := tiles;
    var i := 0;
    while i < 5
      invariant 0 <= i <= 5 && tiles == Smoothings(grid, i)
    {
      tiles := Interpolate(tiles);
      i := i + 1;
    }
    ghost var smooth := tiles;
    i := 0;
    while i < 5
      invariant 0 <= i <= 5 && tiles == WaterPasses(smooth, i)
    {
      var water := WaterOf(tiles);
      var rest := Others(tiles);
      var raised := InterpolateWater(water);
      tiles := rest + raised;
      i := i + 1;
    }
    var dirt := GenerateDirt(tiles);
    tiles := dirt + tiles;
    tiles := Sorting.SortBy(tiles, YKey);
    tiles := Sorting.SortBy(tiles, ZKey);
  }

  /** Smoothing keeps the heights within the range they start in. */
  lemma {:induction false} SmoothingsWithin(tiles: seq<Tile>, n: nat, lo: int, hi: int)
    requires Within(tiles, lo, hi)
    ensures Within(Smoothings(tiles, n), lo, hi)
  {
    if n > 0 {
      SmoothingsWithin(tiles, n - 1, lo, hi);
      InterpolatedWithin(Smoothings(tiles, n - 1), lo, hi);
    }
  }

  /** So do the water passes. */
  lemma {:induction false} WaterPassesWithin(tiles: seq<Tile>, n: nat, lo: int, hi: int)
    requires Within(tiles, lo, hi)
    ensures Within(WaterPasses(tiles, n), lo, hi)
  {
    if n > 0 {
      WaterPassesWithin(tiles, n - 1, lo, hi);
      WaterPassWithin(WaterPasses(tiles, n - 1), lo, hi);
    }
  }

  /** The water passes keep the tiles typed and the number of WATER tiles. */
  lemma {:induction false} WaterPassesKeepWater(tiles: seq<Tile>, n: nat)
    requires AllTyped(tiles)
    ensures AllTyped(WaterPasses(tiles, n)) && |WaterOf(WaterPasses(tiles, n))| == |WaterOf(tiles)|
  {
    if n > 0 {
      WaterPassesKeepWater(tiles, n - 1);
      WaterPassKeepsWater(WaterPasses(tiles, n - 1));
    }
  }

  /**
   * The terrain before the dirt: as many tiles as grid points, each typed by its
   * height, as many WATER tiles as the smoothing left, every height within
   * 0..WORLD_HEIGHT; its dirt tiles are within that range too.
   */
  lemma TerrainFacts(width: int, height: int, draw: nat -> nat)
    requires DrawsInRange(draw)
    ensures var t := Terrain5(width, height, draw);
      |t| == |GridPoints(width, height)| && AllTyped(t) &&
      |WaterOf(t)| == |WaterOf(Smoothings(Place(GridPoints(width, height), draw), 5))| &&
      Within(DirtOf(t, |t|) + t, 0, WORLD_HEIGHT)
  {
    var g := Place(GridPoints(width, height), draw);
    GridCovers(width, height, draw);
    SmoothingsWithin(g, 5, 0, WORLD_HEIGHT);
    var sm := Smoothings(g, 5);
    WaterPassesWithin(sm, 5, 0, WORLD_HEIGHT);
    WaterPassesKeepWater(sm, 5);
    var t := Terrain5(width, height, draw);
    DirtWithin(t, 0, WORLD_HEIGHT);
  }

  /**
   * The generated world: the terrain tiles and their dirt, reordered and nothing else,
   * every height within 0..WORLD_HEIGHT, and the tiles in ascending (z, y) order.
   */
  lemma GeneratedWorld(width: int, height: int, draw: nat -> nat)
    requires DrawsInRange(draw)
    ensures var t := Terrain5(width, height, draw);
      multiset(Generated(width, height, draw)) == multiset(DirtOf(t, |t|) + t)
    ensures Within(Generated(width, height, draw), 0, WORLD_HEIGHT)
    ensures Sorting.Numbers(Generated(width, height, draw), ZKey) && Sorting.Numbers(Generated(width, height, draw), YKey)
    ensures Sorting.LexSorted(Generated(width, height, draw), ZKey, YKey)
  {
    TerrainFacts(width, height, draw);
    var t := Terrain5(width, height, draw);
    var all := DirtOf(t, |t|) + t;
    Sorting.TwoSorts(all, ZKey, YKey);
    var w := Generated(width, height, draw);
    forall i | 0 <= i < |w|
      ensures 0 <= w[i].y <= WORLD_HEIGHT
    {
      assert w[i] in multiset(all);
      var k :| 0 <= k < |all| && all[k] == w[i];
    }
  }
}
