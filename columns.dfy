/**
 * The worker's column hash (`tileHash` in resources/workers/World_Generator.mjs): for
 * every column, the list of the tiles pushed into it, in push order. Tiles are pushed
 * into their column in the order they enter the tile list, so the hash is a function
 * of the tile list alone.
 */
module ColumnIndex {
  import opened Terrain
  import opened Neighbours

  /** `if (tileHash[key] == undefined) tileHash[key] = []; tileHash[key].push(j)` */
  function Push(cols: Columns, key: ColumnKey, j: nat): Columns {
    cols[key := (if key in cols then cols[key] else []) + [j]]
  }

  /** The column hash once the first `n` tiles have been pushed. */
  function IndexOf(tiles: seq<Tile>, n: nat): Columns
    requires n <= |tiles|
  {
    if n == 0 then map[] else Push(IndexOf(tiles, n - 1), TileKey(tiles[n - 1]), n - 1)
  }

  /** The column hash of a whole tile list. */
  function Index(tiles: seq<Tile>): Columns {
    IndexOf(tiles, |tiles|)
  }

  /** Two tile lists of one length with the same position at every index. */
  predicate SamePlaces(t1: seq<Tile>, t2: seq<Tile>) {
    |t1| == |t2| && forall j :: 0 <= j < |t1| ==> t1[j].hx == t2[j].hx && t1[j].hz == t2[j].hz
  }

  /** A strictly increasing list of indices. */
  predicate Ascending(s: seq<nat>) {
    forall k, l :: 0 <= k < l < |s| ==> s[k] < s[l]
  }

  /**
   * Every column present lists, in increasing order, indices below `n` of tiles in that
   * column, and lists at least one.
   */
  predicate Lists(tiles: seq<Tile>, cols: Columns, n: nat)
    requires n <= |tiles|
  {
    forall key :: key in cols ==>
      |cols[key]| > 0 && Ascending(cols[key]) &&
      forall k :: 0 <= k < |cols[key]| ==> cols[key][k] < n && TileKey(tiles[cols[key][k]]) == key
  }

  /** Every tile below `n` is listed in its column. */
  predicate Covers(tiles: seq<Tile>, cols: Columns, n: nat)
    requires n <= |tiles|
  {
    forall j :: 0 <= j < n ==> TileKey(tiles[j]) in cols && j in cols[TileKey(tiles[j])]
  }

  lemma PushLists(tiles: seq<Tile>, cols: Columns, n: nat)
    requires 0 < n <= |tiles| && Lists(tiles, cols, n - 1)
    ensures Lists(tiles, Push(cols, TileKey(tiles[n - 1]), n - 1), n)
  {
    var key := TileKey(tiles[n - 1]);
    var l := if key in cols then cols[key] else [];
    assert forall k :: 0 <= k < |l| ==> (l + [n - 1])[k] == l[k];
  }

  lemma PushCovers(tiles: seq<Tile>, cols: Columns, n: nat)
    requires 0 < n <= |tiles| && Covers(tiles, cols, n - 1)
    ensures Covers(tiles, Push(cols, TileKey(tiles[n - 1]), n - 1), n)
  {
  }

  /**
   * The column of `key` lists exactly the indices below `n` of the tiles in that
   * column, in increasing order; a column is present exactly when it has a tile.
   */
  lemma {:induction false} IndexOfMembers(tiles: seq<Tile>, n: nat)
    requires n <= |tiles|
    ensures Lists(tiles, IndexOf(tiles, n), n) && Covers(tiles, IndexOf(tiles, n), n)
  {
    if n > 0 {
      IndexOfMembers(tiles, n - 1);
      PushLists(tiles, IndexOf(tiles, n - 1), n);
      PushCovers(tiles, IndexOf(tiles, n - 1), n);
    }
  }

  /** Pushing more tiles leaves the hash of the first `n` alone. */
  lemma {:induction false} IndexOfPrefix(tiles: seq<Tile>, more: seq<Tile>, n: nat)
    requires n <= |tiles|
    ensures IndexOf(tiles + more, n) == IndexOf(tiles, n)
  {
    if n > 0 {
      IndexOfPrefix(tiles, more, n - 1);
      assert (tiles + more)[n - 1] == tiles[n - 1];
    }
  }

  /** The hash depends on the positions only, not on heights or types. */
  lemma {:induction false} IndexOfPlaces(t1: seq<Tile>, t2: seq<Tile>, n: nat)
    requires SamePlaces(t1, t2) && n <= |t1|
    ensures IndexOf(t1, n) == IndexOf(t2, n)
  {
    if n > 0 {
      IndexOfPlaces(t1, t2, n - 1);
      assert TileKey(t1[n - 1]) == TileKey(t2[n - 1]);
    }
  }

  lemma IndexPlaces(t1: seq<Tile>, t2: seq<Tile>)
    requires SamePlaces(t1, t2)
    ensures Index(t1) == Index(t2)
  {
    IndexOfPlaces(t1, t2, |t1|);
  }

  /** Appending a tile and pushing its index keeps the hash equal to the list's own. */
  lemma IndexPush(tiles: seq<Tile>, t: Tile)
    ensures Index(tiles + [t]) == Push(Index(tiles), TileKey(t), |tiles|)
  {
    IndexOfPrefix(tiles, [t], |tiles|);
    assert (tiles + [t])[|tiles|] == t;
  }

  lemma IndexBelow(tiles: seq<Tile>)
    ensures IndicesBelow(Index(tiles), |tiles|)
  {
    IndexOfMembers(tiles, |tiles|);
    var cols := Index(tiles);
    assert forall key, k :: key in cols && 0 <= k < |cols[key]| ==> cols[key][k] < |tiles|;
  }
}
