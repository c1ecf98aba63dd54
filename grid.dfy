/**
 * The first step of the worker's `generate` (resources/workers/World_Generator.mjs):
 * the nested loops that lay out one GRASS tile on every lattice point of the requested
 * rectangle, z outer and x inner, each with a random whole height, and push it into
 * its column of the hash.
 */
module Grid {
  import opened Terrain
  import opened Lattice
  import opened Neighbours
  import opened ColumnIndex

  /**
   * `Math.round(Math.random() * WORLD_HEIGHT)` for the k-th tile created: the random
   * source is an input of the model.
   */
  ghost predicate DrawsInRange(draw: nat -> nat) {
    forall k: nat :: draw(k) <= WORLD_HEIGHT
  }

  /** The tiles created for the visited points `ps` (pairs (z, x)), the k-th with draw k. */
  function Place(ps: seq<(int, int)>, draw: nat -> nat): (tiles: seq<Tile>)
    ensures |tiles| == |ps|
  {
    seq(|ps|, k requires 0 <= k < |ps| => Tile(ps[k].1, Units(draw(k)), ps[k].0, Grass))
  }

  /** The tile list of the rectangle [sx, ex] x [sz, ez] (doubled coordinates). */
  function GridTiles(sx: int, sz: int, ex: int, ez: int, draw: nat -> nat): seq<Tile> {
    Place(Scan(sz, ez, sx, ex), draw)
  }

  lemma PlaceAppend(ps: seq<(int, int)>, p: (int, int), draw: nat -> nat)
    ensures Place(ps + [p], draw) == Place(ps, draw) + [Tile(p.1, Units(draw(|ps|)), p.0, Grass)]
  {
  }

  /** The inner loop for one z: x from sx to ex, creating a tile on every lattice point. */
  method GridRow(tiles: seq<Tile>, cols: Columns, ghost pre: seq<(int, int)>, z: int, sx: int, ex: int, draw: nat -> nat)
    returns (tiles': seq<Tile>, cols': Columns)
    requires tiles == Place(pre, draw) && cols == Index(tiles)
    ensures tiles' == Place(pre + Row(z, sx, ex), draw) && cols' == Index(tiles')
  {
    tiles', cols' := tiles, cols;
    var x := sx;
    assert pre + Row(z, sx, sx - 1) == pre;
    while x <= ex
      invariant sx <= x <= ex + 1 || (x == sx && ex < sx)
      invariant tiles' == Place(pre + Row(z, sx, x - 1), draw) && cols' == Index(tiles')
      decreases ex - x
    {
      ghost var ps := pre + Row(z, sx, x - 1);
      if OnLattice(x, z) {
        var t := Tile(x, Units(draw(|tiles'|)), z, Grass);
        IndexPush(tiles', t);
        PlaceAppend(ps, (z, x), draw);
        tiles' := tiles' + [t];
        cols' := Push(cols', KeyOf(x, z), |tiles'| - 1);
        assert OnLattice(z, x);
        assert ps + [(z, x)] == pre + Row(z, sx, x);
      } else {
        assert !OnLattice(z, x);
        assert ps == pre + Row(z, sx, x);
      }
      x := x + 1;
    }
    if ex < sx {
      assert Row(z, sx, ex) == [];
    } else {
      assert x == ex + 1;
    }
  }

  /** The nested loops of the grid: z from sz to ez, and for each z the row of x. */
  method BuildGrid(sx: int, sz: int, ex: int, ez: int, draw: nat -> nat) returns (tiles: seq<Tile>, cols: Columns)
    ensures tiles == GridTiles(sx, sz, ex, ez, draw) && cols == Index(tiles)
  {
    tiles, cols := [], map[];
    var z := sz;
    while z <= ez
      invariant sz <= z <= ez + 1 || (z == sz && ez < sz)
      invariant tiles == Place(Scan(sz, z - 1, sx, ex), draw) && cols == Index(tiles)
      decreases ez - z
    {
      tiles, cols := GridRow(tiles, cols, Scan(sz, z - 1, sx, ex), z, sx, ex, draw);
      assert Scan(sz, z, sx, ex) == Scan(sz, z - 1, sx, ex) + Row(z, sx, ex);
      z := z + 1;
    }
    if ez < sz {
      assert Scan(sz, ez, sx, ex) == [];
    } else {
      assert z == ez + 1;
    }
  }

  /** A tile of the grid: on the lattice, inside the rectangle, GRASS, whole height 0..64. */
  predicate GridTile(t: Tile, sx: int, sz: int, ex: int, ez: int) {
    OnLattice(t.hx, t.hz) && sx <= t.hx <= ex && sz <= t.hz <= ez && t.kind == Grass &&
    t.y.Tenths? && 0 <= t.y.v <= 10 * WORLD_HEIGHT && Integral(t.y)
  }

  /**
   * Every grid tile lies on a lattice point of the rectangle, is GRASS and has a whole
   * height in 0..WORLD_HEIGHT; every lattice point of the rectangle has a tile.
   */
  lemma GridCovers(sx: int, sz: int, ex: int, ez: int, draw: nat -> nat)
    requires DrawsInRange(draw)
    ensures forall k :: 0 <= k < |GridTiles(sx, sz, ex, ez, draw)| ==> GridTile(GridTiles(sx, sz, ex, ez, draw)[k], sx, sz, ex, ez)
    ensures forall x, z :: sx <= x <= ex && sz <= z <= ez && OnLattice(x, z) ==>
      exists k :: 0 <= k < |GridTiles(sx, sz, ex, ez, draw)| &&
        GridTiles(sx, sz, ex, ez, draw)[k].hx == x && GridTiles(sx, sz, ex, ez, draw)[k].hz == z
  {
    var ps := Scan(sz, ez, sx, ex);
    var tiles := GridTiles(sx, sz, ex, ez, draw);
    ScanMembers(sz, ez, sx, ex);
    forall k | 0 <= k < |tiles|
      ensures GridTile(tiles[k], sx, sz, ex, ez)
    {
      assert ps[k] in ps;
      assert OnLattice(ps[k].0, ps[k].1);
      EvenSwap(ps[k].0, ps[k].1);
      assert draw(k) <= WORLD_HEIGHT;
    }
    forall x, z | sx <= x <= ex && sz <= z <= ez && OnLattice(x, z)
      ensures exists k :: 0 <= k < |tiles| && tiles[k].hx == x && tiles[k].hz == z
    {
      EvenSwap(x, z);
      assert InRect((z, x), sz, ez, sx, ex);
      var k :| 0 <= k < |ps| && ps[k] == (z, x);
      assert tiles[k].hx == x && tiles[k].hz == z;
    }
  }

  lemma EvenSwap(a: int, b: int)
    ensures OnLattice(a, b) == OnLattice(b, a)
  {
    assert a + b == b + a;
  }

  /** Grid tiles at different indices lie in different columns. */
  lemma GridKeysDistinct(sx: int, sz: int, ex: int, ez: int, draw: nat -> nat, j: nat, k: nat)
    requires j < k < |GridTiles(sx, sz, ex, ez, draw)|
    ensures TileKey(GridTiles(sx, sz, ex, ez, draw)[j]) != TileKey(GridTiles(sx, sz, ex, ez, draw)[k])
  {
    var ps := Scan(sz, ez, sx, ex);
    ScanIncreasing(sz, ez, sx, ex);
    assert Before(ps[j], ps[k]);
  }

  /** The grid has exactly one tile in every column of its hash. */
  lemma GridOnePerColumn(sx: int, sz: int, ex: int, ez: int, draw: nat -> nat)
    ensures forall key :: key in Index(GridTiles(sx, sz, ex, ez, draw)) ==> |Index(GridTiles(sx, sz, ex, ez, draw))[key]| == 1
  {
    var tiles := GridTiles(sx, sz, ex, ez, draw);
    var cols := Index(tiles);
    IndexOfMembers(tiles, |tiles|);
    forall key | key in cols
      ensures |cols[key]| == 1
    {
      if |cols[key]| > 1 {
        GridKeysDistinct(sx, sz, ex, ez, draw, cols[key][0], cols[key][1]);
        assert false;
      }
    }
  }
}
