/**
 * The three in-place classification passes of the worker's `generate`
 * (resources/workers/World_Generator.mjs): flooding the low tiles, demoting isolated
 * water, and turning the shoreline to sand. Each walks the tile list in index order and
 * rewrites tiles while later tiles still look at their neighbours, so each method is
 * proved against either the simultaneous form of the pass (when the order provably does
 * not matter) or the fold over the indices (when it does).
 */
module WaterPasses {
  import opened Terrain
  import opened Neighbours
  import opened ColumnIndex

  /* ---------- Flooding: WATER and DEEP_WATER ---------- */

  /** `t.type.includes("WATER") || t.y <= WATER_LEVEL + 0.5` */
  predicate WetOrLow(t: Tile) {
    IsWaterType(t.kind) || AtMost(t.y, SHALLOW_SURFACE_10)
  }

  /** The flooding loop's body, given whether every radius-2 neighbour is wet or low. */
  function Flood(t: Tile, allWet: bool): Tile {
    if !AtMost(t.y, WATER_LEVEL_10) then t
    else if allWet then t.(kind := DeepWater, y := Tenths(DEEP_SURFACE_10))
    else t.(kind := Water, y := Tenths(SHALLOW_SURFACE_10))
  }

  /** The verdict on one tile, taken on the list `tiles`. */
  function FloodTile(tiles: seq<Tile>, cols: Columns, t: Tile): Tile
    requires IndicesBelow(cols, |tiles|)
  {
    Flood(t, Every(WetOrLow, NeighbourTiles(tiles, cols, t.hx, t.hz, 4)))
  }

  /** Flooding with every tile judged on the list as it was before the pass. */
  function FloodAll(tiles: seq<Tile>, cols: Columns): (r: seq<Tile>)
    requires IndicesBelow(cols, |tiles|)
    ensures |r| == |tiles|
  {
    seq(|tiles|, i requires 0 <= i < |tiles| => FloodTile(tiles, cols, tiles[i]))
  }

  /**
   * Flooding a tile never changes whether it counts as wet or low for its neighbours:
   * a flooded tile was at most WATER_LEVEL before and is water-typed after.
   */
  lemma FloodKeepsWetOrLow(t: Tile, allWet: bool)
    ensures WetOrLow(Flood(t, allWet)) == WetOrLow(t)
  {
  }

  /**
   * The flooding loop, in place. It ends where the simultaneous form ends: the pass
   * does not depend on the order the tiles are visited in.
   */
  method FloodLowTiles(tiles: seq<Tile>, cols: Columns) returns (tiles': seq<Tile>)
    requires IndicesBelow(cols, |tiles|)
    ensures tiles' == FloodAll(tiles, cols)
  {
    tiles' := tiles;
    var i := 0;
    while i < |tiles'|
      invariant 0 <= i <= |tiles'| == |tiles|
      invariant forall j :: 0 <= j < i ==> tiles'[j] == FloodTile(tiles, cols, tiles[j])
      invariant forall j :: i <= j < |tiles| ==> tiles'[j] == tiles[j]
      invariant AgreeOn(WetOrLow, tiles', tiles)
    {
      var t := tiles'[i];
      if AtMost(t.y, WATER_LEVEL_10) {
        var ns := GetNeighbours(tiles', cols, t.hx, t.hz, 4);
        NeighboursAgree(WetOrLow, tiles', tiles, cols, t.hx, t.hz, 4);
        var allWet := Every(WetOrLow, ns);
        if allWet {
          t := t.(kind := DeepWater, y := Tenths(DEEP_SURFACE_10));
        } else {
          t := t.(kind := Water, y := Tenths(SHALLOW_SURFACE_10));
        }
        FloodKeepsWetOrLow(tiles[i], allWet);
        tiles' := tiles'[i := t];
      }
      i := i + 1;
    }
  }

  /* ---------- Demotion of isolated water ---------- */

  predicate IsDeep(t: Tile) {
    t.kind == DeepWater
  }

  /** `t.type == "WATER"` (not DEEP_WATER). */
  predicate IsShallow(t: Tile) {
    t.kind == Water
  }

  /** The demotion loop's body for a tile with current radius-0.5 neighbours `ns`. */
  function Demote(t: Tile, ns: seq<Tile>): Tile {
    if t.kind == DeepWater && !Any(IsDeep, ns) then t.(kind := Water, y := Tenths(SHALLOW_SURFACE_10))
    else if t.kind == Water && !Any(IsShallow, ns) then t.(kind := Grass, y := Tenths(SHORE_10))
    else t
  }

  /** Visiting index `i`: the tile is judged on the list as it is now. */
  function DemoteAt(tiles: seq<Tile>, cols: Columns, i: nat): (r: seq<Tile>)
    requires IndicesBelow(cols, |tiles|) && i < |tiles|
    ensures |r| == |tiles|
  {
    tiles[i := Demote(tiles[i], NeighbourTiles(tiles, cols, tiles[i].hx, tiles[i].hz, 1))]
  }

  /** The list after visiting indices 0..n-1 in order. */
  function DemoteUpTo(tiles: seq<Tile>, cols: Columns, n: nat): (r: seq<Tile>)
    requires IndicesBelow(cols, |tiles|) && n <= |tiles|
    ensures |r| == |tiles|
  {
    if n == 0 then tiles else DemoteAt(DemoteUpTo(tiles, cols, n - 1), cols, n - 1)
  }

  /** The demotion loop, in place and in index order. */
  method DemoteIsolatedWater(tiles: seq<Tile>, cols: Columns) returns (tiles': seq<Tile>)
    requires IndicesBelow(cols, |tiles|)
    ensures tiles' == DemoteUpTo(tiles, cols, |tiles|)
  {
    tiles' := tiles;
    var i := 0;
    while i < |tiles'|
      invariant 0 <= i <= |tiles'| == |tiles|
      invariant tiles' == DemoteUpTo(tiles, cols, i)
    {
      var t := tiles'[i];
      if t.kind != DeepWater && t.kind != Water {
        assert DemoteAt(tiles', cols, i) == tiles';
        i := i + 1;
        continue;
      }
      var ns := GetNeighbours(tiles', cols, t.hx, t.hz, 1);
      if t.kind == DeepWater && !Any(IsDeep, ns) {
        t := t.(kind := Water, y := Tenths(SHALLOW_SURFACE_10));
      } else if t.kind == Water && !Any(IsShallow, ns) {
        t := t.(kind := Grass, y := Tenths(SHORE_10));
      }
      tiles' := tiles'[i := t];
      i := i + 1;
    }
  }

  /** One demotion step at most: DEEP_WATER to WATER, or WATER to GRASS, or nothing. */
  predicate OneStep(before: Tile, after: Tile) {
    after == before ||
    (before.kind == DeepWater && after == before.(kind := Water, y := Tenths(SHALLOW_SURFACE_10))) ||
    (before.kind == Water && after == before.(kind := Grass, y := Tenths(SHORE_10)))
  }

  /**
   * After visiting 0..n-1, the visited tiles moved at most one step down from what
   * they were, and the others are untouched. So the pass touches only water tiles and
   * never turns DEEP_WATER into GRASS.
   */
  lemma {:induction false} DemotionSteps(tiles: seq<Tile>, cols: Columns, n: nat)
    requires IndicesBelow(cols, |tiles|) && n <= |tiles|
    ensures forall i :: 0 <= i < n ==> OneStep(tiles[i], DemoteUpTo(tiles, cols, n)[i])
    ensures forall i :: n <= i < |tiles| ==> DemoteUpTo(tiles, cols, n)[i] == tiles[i]
  {
    if n > 0 {
      DemotionSteps(tiles, cols, n - 1);
      var prev := DemoteUpTo(tiles, cols, n - 1);
      var ns := NeighbourTiles(prev, cols, prev[n - 1].hx, prev[n - 1].hz, 1);
      assert prev[n - 1] == tiles[n - 1];
      assert OneStep(tiles[n - 1], Demote(tiles[n - 1], ns));
    }
  }

  /** The demotion pass keeps every position. */
  lemma {:induction false} DemotionKeepsPlaces(tiles: seq<Tile>, cols: Columns, n: nat)
    requires IndicesBelow(cols, |tiles|) && n <= |tiles|
    ensures SamePlaces(tiles, DemoteUpTo(tiles, cols, n))
  {
    DemotionSteps(tiles, cols, n);
  }

  /* ---------- Sand at the shoreline ---------- */

  /** The shoreline loop's body, given whether some radius-1 neighbour is WATER. */
  function Shore(t: Tile, nearWater: bool): Tile {
    if IsWaterType(t.kind) then t
    else if IsAt(t.y, SHORE_10) then (if nearWater then t.(kind := Sand) else t.(y := Tenths(UPLAND_10)))
    else t
  }

  function ShoreTile(tiles: seq<Tile>, cols: Columns, t: Tile): Tile
    requires IndicesBelow(cols, |tiles|)
  {
    Shore(t, Any(IsShallow, NeighbourTiles(tiles, cols, t.hx, t.hz, 2)))
  }

  /** The shoreline pass with every tile judged on the list before the pass. */
  function ShoreAll(tiles: seq<Tile>, cols: Columns): (r: seq<Tile>)
    requires IndicesBelow(cols, |tiles|)
    ensures |r| == |tiles|
  {
    seq(|tiles|, i requires 0 <= i < |tiles| => ShoreTile(tiles, cols, tiles[i]))
  }

  /** The shoreline pass never creates or removes a WATER tile. */
  lemma ShoreKeepsShallow(t: Tile, nearWater: bool)
    ensures IsShallow(Shore(t, nearWater)) == IsShallow(t)
  {
  }

  /** The shoreline loop, in place; like flooding, its result does not depend on order. */
  method MakeShore(tiles: seq<Tile>, cols: Columns) returns (tiles': seq<Tile>)
    requires IndicesBelow(cols, |tiles|)
    ensures tiles' == ShoreAll(tiles, cols)
  {
    tiles' := tiles;
    var i := 0;
    while i < |tiles'|
      invariant 0 <= i <= |tiles'| == |tiles|
      invariant forall j :: 0 <= j < i ==> tiles'[j] == ShoreTile(tiles, cols, tiles[j])
      invariant forall j :: i <= j < |tiles| ==> tiles'[j] == tiles[j]
      invariant AgreeOn(IsShallow, tiles', tiles)
    {
      var t := tiles'[i];
      if t.kind == Water || t.kind == DeepWater {
        i := i + 1;
        continue;
      }
      var ns := GetNeighbours(tiles', cols, t.hx, t.hz, 2);
      NeighboursAgree(IsShallow, tiles', tiles, cols, t.hx, t.hz, 2);
      var nearWater := Any(IsShallow, ns);
      if IsAt(t.y, SHORE_10) {
        if nearWater {
          t := t.(kind := Sand);
        } else {
          t := t.(y := Tenths(UPLAND_10));
        }
      }
      ShoreKeepsShallow(tiles[i], nearWater);
      tiles' := tiles'[i := t];
      i := i + 1;
    }
  }

  /** What the shoreline pass does to each tile, in the terms of the source's comments. */
  lemma ShoreEffect(tiles: seq<Tile>, cols: Columns, i: nat)
    requires IndicesBelow(cols, |tiles|) && i < |tiles|
    ensures var t, r := tiles[i], ShoreAll(tiles, cols)[i];
      if !IsWaterType(t.kind) && IsAt(t.y, SHORE_10) then
        (r.kind == Sand && r.y == t.y) || (r.kind == t.kind && r.y == Tenths(UPLAND_10))
      else r == t
    ensures ShoreAll(tiles, cols)[i].kind == Sand && tiles[i].kind != Sand ==>
      exists k :: 0 <= k < |NeighbourTiles(tiles, cols, tiles[i].hx, tiles[i].hz, 2)| &&
        NeighbourTiles(tiles, cols, tiles[i].hx, tiles[i].hz, 2)[k].kind == Water
  {
  }

  /** Flooding and the shoreline pass keep every position. */
  lemma FloodAndShoreKeepPlaces(tiles: seq<Tile>, cols: Columns)
    requires IndicesBelow(cols, |tiles|)
    ensures SamePlaces(tiles, FloodAll(tiles, cols)) && SamePlaces(tiles, ShoreAll(tiles, cols))
  {
  }
}
