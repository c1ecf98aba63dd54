/**
 * The worker's `generate(startX, startZ, endX, endZ)` (resources/workers/World_Generator.mjs):
 * lay out the grass grid, smooth it, classify water, sand and grass, add the dirt layers,
 * and post the tiles back together with the four bounds exactly as received.
 */
module Generator {
  import opened Wrappers
  import opened Terrain
  import opened Lattice
  import opened Neighbours
  import opened ColumnIndex
  import opened Grid
  import opened Smoothing
  import opened WaterPasses
  import opened Dirt

  /** The message `{ tiles, startX, startZ, endX, endZ }` posted back to the page. */
  datatype Response = Response(tiles: seq<Tile>, startX: Num, startZ: Num, endX: Num, endZ: Num)

  /** `isNaN(endX - startX) || isNaN(endZ - startZ)`: the early return. */
  predicate NaNRegion(sx: Num, sz: Num, ex: Num, ez: Num) {
    DiffIsNaN(ex, sx) || DiffIsNaN(ez, sz)
  }

  /**
   * The two `+= 0.5` loops end: a loop that is entered has finite bounds (from an
   * infinite start, or up to an infinite end, the loop never stops).
   */
  predicate LoopsEnd(sx: Num, sz: Num, ex: Num, ez: Num) {
    NumLe(sz, ez) ==> sz.Fin? && ez.Fin? && (NumLe(sx, ex) ==> sx.Fin? && ex.Fin?)
  }

  /** The grid the nested loops lay out; a range that is not entered gives no tiles. */
  function GridOf(sx: Num, sz: Num, ex: Num, ez: Num, draw: nat -> nat): seq<Tile>
    requires LoopsEnd(sx, sz, ex, ez)
  {
    if NumLe(sz, ez) && NumLe(sx, ex) then GridTiles(sx.half, sz.half, ex.half, ez.half, draw) else []
  }

  /**
   * The surface after smoothing, flooding, demotion and the shoreline pass. All passes
   * read the one column hash built with the grid (they never move a tile).
   */
  function Surface(grid: seq<Tile>): (s: seq<Tile>)
    ensures |s| == |grid|
  {
    IndexBelow(grid);
    var cols := Index(grid);
    var f := FloodAll(SmoothRounds(grid, cols, SMOOTHING_DEPTH), cols);
    ShoreAll(DemoteUpTo(f, cols, |f|), cols)
  }

  /** The whole tile list posted for a grid: the surface followed by its dirt layers. */
  function Passes(grid: seq<Tile>): seq<Tile> {
    DirtRounds(Surface(grid), WORLD_HEIGHT).0
  }

  /** The tiles `generate` posts for the given bounds and random draws. */
  function GeneratedTiles(sx: Num, sz: Num, ex: Num, ez: Num, draw: nat -> nat): seq<Tile>
    requires NaNRegion(sx, sz, ex, ez) || LoopsEnd(sx, sz, ex, ez)
  {
    if NaNRegion(sx, sz, ex, ez) then [] else Passes(GridOf(sx, sz, ex, ez, draw))
  }

  /** The passes after the grid, in place and in order, on one shared hash. */
  method RunPasses(grid: seq<Tile>, cols: Columns) returns (tiles: seq<Tile>)
    requires cols == Index(grid)
    ensures tiles == Passes(grid)
  {
    IndexBelow(grid);
    var s := Smooth(grid, cols);
    var f := FloodLowTiles(s, cols);
    var d := DemoteIsolatedWater(f, cols);
    var sh := MakeShore(d, cols);
    SmoothRoundsKeepPlaces(grid, cols, SMOOTHING_DEPTH);
    FloodAndShoreKeepPlaces(s, cols);
    DemotionKeepsPlaces(f, cols, |f|);
    FloodAndShoreKeepPlaces(d, cols);
    assert SamePlaces(grid, sh);
    IndexPlaces(grid, sh);
    var cols';
    tiles, cols' := AddDirt(sh, cols);
  }

  /**
   * `generate`: bounds whose difference is NaN give no tiles; otherwise the grid and
   * the passes. The bounds are echoed back unchanged in every case.
   */
  method Generate(startX: Num, startZ: Num, endX: Num, endZ: Num, draw: nat -> nat) returns (r: Response)
    requires NaNRegion(startX, startZ, endX, endZ) || LoopsEnd(startX, startZ, endX, endZ)
    ensures r == Response(GeneratedTiles(startX, startZ, endX, endZ, draw), startX, startZ, endX, endZ)
    ensures NaNRegion(startX, startZ, endX, endZ) ==> r.tiles == []
  {
    if NaNRegion(startX, startZ, endX, endZ) {
      return Response([], startX, startZ, endX, endZ);
    }
    var grid: seq<Tile>, cols: Columns := [], map[];
    if NumLe(startZ, endZ) && NumLe(startX, endX) {
      grid, cols := BuildGrid(startX.half, startZ.half, endX.half, endZ.half, draw);
    }
    var tiles := RunPasses(grid, cols);
    r := Response(tiles, startX, startZ, endX, endZ);
  }

  /* ---------- What the posted tiles look like ---------- */

  /** A tile after flooding: GRASS above WATER_LEVEL, or water at its surface height. */
  predicate Flooded(t: Tile) {
    (t.kind == Grass && !AtMost(t.y, WATER_LEVEL_10)) ||
    (t.kind == DeepWater && t.y == Tenths(DEEP_SURFACE_10)) ||
    (t.kind == Water && t.y == Tenths(SHALLOW_SURFACE_10))
  }

  /**
   * A surface tile once the passes are done: DEEP_WATER and WATER at their surface
   * heights, SAND exactly at WATER_LEVEL + 1, GRASS above WATER_LEVEL but never at
   * WATER_LEVEL + 1 (such grass became sand or was raised to WATER_LEVEL + 2).
   */
  predicate Classified(t: Tile) {
    (t.kind == DeepWater && t.y == Tenths(DEEP_SURFACE_10)) ||
    (t.kind == Water && t.y == Tenths(SHALLOW_SURFACE_10)) ||
    (t.kind == Sand && t.y == Tenths(SHORE_10)) ||
    (t.kind == Grass && !AtMost(t.y, WATER_LEVEL_10) && !IsAt(t.y, SHORE_10))
  }

  predicate AllGrass(tiles: seq<Tile>) {
    forall i :: 0 <= i < |tiles| ==> tiles[i].kind == Grass
  }

  /** Flooding an all-GRASS list leaves every tile flooded. */
  lemma FloodClassifies(tiles: seq<Tile>, cols: Columns)
    requires IndicesBelow(cols, |tiles|) && AllGrass(tiles)
    ensures forall i :: 0 <= i < |tiles| ==> Flooded(FloodAll(tiles, cols)[i])
  {
  }

  /** Demotion keeps flooded tiles flooded: each moves at most one step down. */
  lemma DemotionKeepsFlooded(tiles: seq<Tile>, cols: Columns)
    requires IndicesBelow(cols, |tiles|)
    requires forall i :: 0 <= i < |tiles| ==> Flooded(tiles[i])
    ensures forall i :: 0 <= i < |tiles| ==> Flooded(DemoteUpTo(tiles, cols, |tiles|)[i])
  {
    DemotionSteps(tiles, cols, |tiles|);
  }

  /** The shoreline pass turns flooded tiles into classified ones. */
  lemma ShoreClassifies(tiles: seq<Tile>, cols: Columns)
    requires IndicesBelow(cols, |tiles|)
    requires forall i :: 0 <= i < |tiles| ==> Flooded(tiles[i])
    ensures forall i :: 0 <= i < |tiles| ==> Classified(ShoreAll(tiles, cols)[i])
  {
    forall i | 0 <= i < |tiles|
      ensures Classified(ShoreAll(tiles, cols)[i])
    {
      ShoreEffect(tiles, cols, i);
    }
  }

  /**
   * The surface of an all-GRASS grid has the grid's positions, tile for tile, and every
   * surface tile is classified.
   */
  lemma SurfaceClassified(grid: seq<Tile>)
    requires AllGrass(grid)
    ensures SamePlaces(grid, Surface(grid))
    ensures forall i :: 0 <= i < |grid| ==> Classified(Surface(grid)[i])
  {
    IndexBelow(grid);
    var cols := Index(grid);
    var s := SmoothRounds(grid, cols, SMOOTHING_DEPTH);
    SmoothRoundsKeepPlaces(grid, cols, SMOOTHING_DEPTH);
    var f := FloodAll(s, cols);
    FloodClassifies(s, cols);
    FloodAndShoreKeepPlaces(s, cols);
    var d := DemoteUpTo(f, cols, |f|);
    DemotionKeepsFlooded(f, cols);
    DemotionKeepsPlaces(f, cols, |f|);
    ShoreClassifies(d, cols);
    FloodAndShoreKeepPlaces(d, cols);
  }

  /** A height that is NaN or lies in 0..WORLD_HEIGHT. */
  predicate WithinWorld(t: Tile) {
    t.y.NaN? || 0 <= t.y.v <= 10 * WORLD_HEIGHT
  }

  /**
   * Starting from whole heights in 0..WORLD_HEIGHT (or NaN), the ten smoothing rounds
   * keep them so, and every later pass either keeps a height or sets one of the water,
   * shore or upland levels; so every surface height is NaN or in 0..WORLD_HEIGHT.
   */
  lemma SurfaceWithinWorld(grid: seq<Tile>)
    requires InRangeOrNaN(grid, 0, WORLD_HEIGHT)
    ensures forall i :: 0 <= i < |grid| ==> WithinWorld(Surface(grid)[i])
  {
    IndexBelow(grid);
    var cols := Index(grid);
    var s := SmoothRounds(grid, cols, SMOOTHING_DEPTH);
    SmoothRoundsKeepRange(grid, cols, SMOOTHING_DEPTH, 0, WORLD_HEIGHT);
    var f := FloodAll(s, cols);
    var d := DemoteUpTo(f, cols, |f|);
    DemotionSteps(f, cols, |f|);
    forall i | 0 <= i < |grid|
      ensures WithinWorld(Surface(grid)[i])
    {
      assert WithinWorld(s[i]);
      assert WithinWorld(f[i]);
      assert OneStep(f[i], d[i]);
      assert Surface(grid)[i] == ShoreTile(d, cols, d[i]);
    }
  }

  /** The surface of a generated grid, whose draws lie in 0..WORLD_HEIGHT. */
  lemma GridSurfaceWithinWorld(sx: int, sz: int, ex: int, ez: int, draw: nat -> nat)
    requires DrawsInRange(draw)
    ensures var grid := GridTiles(sx, sz, ex, ez, draw);
      forall i :: 0 <= i < |grid| ==> WithinWorld(Surface(grid)[i])
  {
    GridCovers(sx, sz, ex, ez, draw);
    SurfaceWithinWorld(GridTiles(sx, sz, ex, ez, draw));
  }

  lemma {:induction false} NoTilesNoDirt(n: nat)
    ensures DirtRounds([], n).0 == [] && Candidates(DirtRounds([], n).0, DirtRounds([], n).1) == []
  {
    if n > 0 {
      NoTilesNoDirt(n - 1);
      var prev := DirtRounds([], n - 1);
      IndexBelow(prev.0);
      assert DirtOf(prev.0, Index(prev.0), [], 0) == [];
    }
  }

  /** Lists with the same positions agree on which pairs share a column. */
  lemma DistinctByPlaces(t1: seq<Tile>, t2: seq<Tile>)
    requires SamePlaces(t1, t2) && DistinctKeys(t1)
    ensures DistinctKeys(t2)
  {
    forall i, j | 0 <= i < j < |t2|
      ensures TileKey(t2[i]) != TileKey(t2[j])
    {
      assert TileKey(t1[i]) != TileKey(t1[j]);
    }
  }

  /** The grid lays out one GRASS tile per column. */
  lemma GridDistinct(sx: int, sz: int, ex: int, ez: int, draw: nat -> nat)
    ensures AllGrass(GridTiles(sx, sz, ex, ez, draw))
    ensures DistinctKeys(GridTiles(sx, sz, ex, ez, draw))
  {
    forall j, k | 0 <= j < k < |GridTiles(sx, sz, ex, ez, draw)|
      ensures TileKey(GridTiles(sx, sz, ex, ez, draw)[j]) != TileKey(GridTiles(sx, sz, ex, ez, draw)[k])
    {
      GridKeysDistinct(sx, sz, ex, ez, draw, j, k);
    }
  }

  /**
   * For a grid of GRASS tiles in distinct columns, the posted list starts with the
   * classified surface, tile for tile at the grid's positions, and continues with DIRT
   * only; no column holds two tiles at one height.
   */
  lemma PassesLayout(grid: seq<Tile>)
    requires AllGrass(grid) && DistinctKeys(grid)
    ensures |grid| <= |Passes(grid)| && SamePlaces(grid, Passes(grid)[..|grid|])
    ensures forall i :: 0 <= i < |grid| ==> Classified(Passes(grid)[i])
    ensures forall i :: |grid| <= i < |Passes(grid)| ==> Passes(grid)[i].kind == Dirt
    ensures Unstacked(Passes(grid))
  {
    var s := Surface(grid);
    SurfaceClassified(grid);
    RoundsOnlyAppend(s, WORLD_HEIGHT);
    DistinctByPlaces(grid, s);
    RoundsUnstacked(s, WORLD_HEIGHT);
  }

  /** On the lattice and inside the rectangle, in doubled coordinates. */
  predicate InRegion(sx: int, sz: int, ex: int, ez: int, hx: int, hz: int) {
    OnLattice(hx, hz) && sx <= hx <= ex && sz <= hz <= ez
  }

  /** Every tile posted, surface or dirt, lies on a lattice point of the rectangle. */
  lemma PassesInRegion(sx: int, sz: int, ex: int, ez: int, draw: nat -> nat)
    ensures forall i :: 0 <= i < |Passes(GridTiles(sx, sz, ex, ez, draw))| ==>
      InRegion(sx, sz, ex, ez, Passes(GridTiles(sx, sz, ex, ez, draw))[i].hx, Passes(GridTiles(sx, sz, ex, ez, draw))[i].hz)
  {
    var grid := GridTiles(sx, sz, ex, ez, draw);
    GridDistinct(sx, sz, ex, ez, draw);
    GridInRegion(sx, sz, ex, ez, draw);
    SurfaceClassified(grid);
    var s := Surface(grid);
    var Q := (hx: int, hz: int) => InRegion(sx, sz, ex, ez, hx, hz);
    assert forall i :: 0 <= i < |s| ==> Q(s[i].hx, s[i].hz);
    RoundsKeepPlaces(Q, s, WORLD_HEIGHT);
  }

  lemma GridInRegion(sx: int, sz: int, ex: int, ez: int, draw: nat -> nat)
    ensures forall i :: 0 <= i < |GridTiles(sx, sz, ex, ez, draw)| ==>
      InRegion(sx, sz, ex, ez, GridTiles(sx, sz, ex, ez, draw)[i].hx, GridTiles(sx, sz, ex, ez, draw)[i].hz)
  {
    var ps := Scan(sz, ez, sx, ex);
    ScanMembers(sz, ez, sx, ex);
    forall i | 0 <= i < |ps|
      ensures OnLattice(ps[i].1, ps[i].0)
    {
      assert ps[i] in ps;
      EvenSwap(ps[i].0, ps[i].1);
    }
  }

  /**
   * What `generate` posts for bounds that are numbers: nothing when a range is empty;
   * otherwise every tile lies on a lattice point of the rectangle, the first tiles are
   * the classified surface at the grid's positions, the rest are DIRT, and no column
   * holds two tiles at one height.
   */
  lemma GeneratedLayout(sx: Num, sz: Num, ex: Num, ez: Num, draw: nat -> nat)
    requires !NaNRegion(sx, sz, ex, ez) && LoopsEnd(sx, sz, ex, ez)
    ensures !(NumLe(sz, ez) && NumLe(sx, ex)) ==> GeneratedTiles(sx, sz, ex, ez, draw) == []
    ensures NumLe(sz, ez) && NumLe(sx, ex) ==>
      forall i :: 0 <= i < |GeneratedTiles(sx, sz, ex, ez, draw)| ==>
        InRegion(sx.half, sz.half, ex.half, ez.half, GeneratedTiles(sx, sz, ex, ez, draw)[i].hx, GeneratedTiles(sx, sz, ex, ez, draw)[i].hz)
    ensures var grid, tiles := GridOf(sx, sz, ex, ez, draw), GeneratedTiles(sx, sz, ex, ez, draw);
      |grid| <= |tiles| && SamePlaces(grid, tiles[..|grid|]) &&
      (forall i :: 0 <= i < |grid| ==> Classified(tiles[i])) &&
      (forall i :: |grid| <= i < |tiles| ==> tiles[i].kind == Dirt) &&
      Unstacked(tiles)
  {
    var grid := GridOf(sx, sz, ex, ez, draw);
    if NumLe(sz, ez) && NumLe(sx, ex) {
      GridDistinct(sx.half, sz.half, ex.half, ez.half, draw);
      PassesInRegion(sx.half, sz.half, ex.half, ez.half, draw);
    } else {
      NoTilesNoDirt(WORLD_HEIGHT);
      assert Surface([]) == [];
    }
    PassesLayout(grid);
  }
}
