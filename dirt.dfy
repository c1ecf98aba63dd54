/**
 * The dirt passes of the worker's `generate` (`generateDirt` and its WORLD_HEIGHT
 * rounds in resources/workers/World_Generator.mjs): below every candidate tile whose
 * column has nothing one unit lower, and whose south-east or south-west column has
 * something at least two units lower, a DIRT tile is added one unit lower. The first
 * round's candidates are the GRASS tiles, every later round's the previous round's dirt.
 */
module Dirt {
  import opened Wrappers
  import opened Terrain
  import opened Neighbours
  import opened ColumnIndex

  /** `t.y == c.y - 1` (false when either is NaN). */
  predicate OneBelow(t: Tile, c: Tile) {
    c.y.Tenths? && IsAt(t.y, c.y.v - 10)
  }

  /** `t.y <= c.y - 2` (false when either is NaN). */
  predicate TwoBelow(t: Tile, c: Tile) {
    c.y.Tenths? && AtMost(t.y, c.y.v - 20)
  }

  /** `tileHash[key]` as a list of tiles; a missing column reads as empty. */
  function ColumnTiles(tiles: seq<Tile>, cols: Columns, key: ColumnKey): seq<Tile>
    requires IndicesBelow(cols, |tiles|)
  {
    if key in cols then seq(|cols[key]|, k requires 0 <= k < |cols[key]| => tiles[cols[key][k]]) else []
  }

  /** `tileHash[c.hash].some(t => t.y == c.y - 1)`: the candidate already has a tile below. */
  predicate Covered(tiles: seq<Tile>, cols: Columns, c: Tile)
    requires IndicesBelow(cols, |tiles|)
  {
    var col := ColumnTiles(tiles, cols, TileKey(c));
    exists k :: 0 <= k < |col| && OneBelow(col[k], c)
  }

  /** Some tile of the column at (hx, hz) is at least two units below the candidate. */
  predicate DropAt(tiles: seq<Tile>, cols: Columns, hx: int, hz: int, c: Tile)
    requires IndicesBelow(cols, |tiles|)
  {
    var col := ColumnTiles(tiles, cols, KeyOf(hx, hz));
    exists k :: 0 <= k < |col| && TwoBelow(col[k], c)
  }

  /** The south-east or the south-west column drops by two or more. */
  predicate Exposed(tiles: seq<Tile>, cols: Columns, c: Tile)
    requires IndicesBelow(cols, |tiles|)
  {
    DropAt(tiles, cols, c.hx + 1, c.hz + 1, c) || DropAt(tiles, cols, c.hx - 1, c.hz + 1, c)
  }

  predicate NeedsDirt(tiles: seq<Tile>, cols: Columns, c: Tile)
    requires IndicesBelow(cols, |tiles|)
  {
    !Covered(tiles, cols, c) && Exposed(tiles, cols, c)
  }

  /** `{ x: c.x, y: c.y - 1, z: c.z, hash: getHash(c.x, c.z), type: "DIRT" }` */
  function DirtUnder(c: Tile): Tile {
    Tile(c.hx, Minus(c.y, 10), c.hz, Dirt)
  }

  /** The dirt `generateDirt` emits for the first `n` candidates. */
  function DirtOf(tiles: seq<Tile>, cols: Columns, cands: seq<Tile>, n: nat): (d: seq<Tile>)
    requires IndicesBelow(cols, |tiles|) && n <= |cands|
    ensures |d| <= n
  {
    if n == 0 then []
    else DirtOf(tiles, cols, cands, n - 1) + (if NeedsDirt(tiles, cols, cands[n - 1]) then [DirtUnder(cands[n - 1])] else [])
  }

  /** `tiles.filter(x => x.type == "GRASS")` over the first `n` tiles. */
  function GrassOf(tiles: seq<Tile>, n: nat): (g: seq<Tile>)
    requires n <= |tiles|
    ensures |g| <= n
  {
    if n == 0 then []
    else GrassOf(tiles, n - 1) + (if tiles[n - 1].kind == Grass then [tiles[n - 1]] else [])
  }

  /** `dirt || tiles.filter(...)`: an empty list is truthy, so only the first round filters. */
  function Candidates(tiles: seq<Tile>, last: Option<seq<Tile>>): seq<Tile> {
    match last
    case None => GrassOf(tiles, |tiles|)
    case Some(d) => d
  }

  /** `generateDirt(tiles, dirt, tileHash)`: one pass over the candidates. */
  method GenerateDirt(tiles: seq<Tile>, cols: Columns, cands: seq<Tile>) returns (d: seq<Tile>)
    requires IndicesBelow(cols, |tiles|)
    requires forall k :: 0 <= k < |cands| ==> TileKey(cands[k]) in cols
    ensures d == DirtOf(tiles, cols, cands, |cands|)
  {
    d := [];
    var i := 0;
    while i < |cands|
      invariant 0 <= i <= |cands| && d == DirtOf(tiles, cols, cands, i)
    {
      var c := cands[i];
      assert TileKey(c) in cols;
      if !Covered(tiles, cols, c) && Exposed(tiles, cols, c) {
        d := d + [DirtUnder(c)];
      }
      i := i + 1;
    }
  }

  /** The `dirt.forEach` loop: push the dirt, appended at index `start`, into its columns. */
  method IndexDirt(tiles: seq<Tile>, cols: Columns, d: seq<Tile>) returns (cols': Columns)
    requires cols == Index(tiles)
    ensures cols' == Index(tiles + d)
  {
    cols' := cols;
    var j := 0;
    assert tiles + d[..0] == tiles;
    while j < |d|
      invariant 0 <= j <= |d| && cols' == Index(tiles + d[..j])
    {
      IndexPush(tiles + d[..j], d[j]);
      assert tiles + d[..j] + [d[j]] == tiles + d[..j + 1];
      cols' := Push(cols', TileKey(d[j]), |tiles| + j);
      j := j + 1;
    }
    assert d[..|d|] == d;
  }

  /** One round: generate, append to the tiles, index the new dirt. */
  function DirtRound(tiles: seq<Tile>, last: Option<seq<Tile>>): (seq<Tile>, seq<Tile>) {
    IndexBelow(tiles);
    var cands := Candidates(tiles, last);
    var d := DirtOf(tiles, Index(tiles), cands, |cands|);
    (tiles + d, d)
  }

  /** The tiles and the last dirt list after `n` rounds. */
  function DirtRounds(tiles: seq<Tile>, n: nat): (seq<Tile>, Option<seq<Tile>>) {
    if n == 0 then (tiles, None)
    else
      var prev := DirtRounds(tiles, n - 1);
      var next := DirtRound(prev.0, prev.1);
      (next.0, Some(next.1))
  }

  /** Every candidate's own column is in the hash (so `tileHash[tile.hash].some` never throws). */
  predicate CandidatesIndexed(tiles: seq<Tile>, last: Option<seq<Tile>>) {
    forall k :: 0 <= k < |Candidates(tiles, last)| ==> TileKey(Candidates(tiles, last)[k]) in Index(tiles)
  }

  /** One iteration of the `maxDepth = WORLD_HEIGHT` loop. */
  method DirtStep(tiles: seq<Tile>, cols: Columns, dirt: Option<seq<Tile>>)
    returns (tiles': seq<Tile>, cols': Columns, dirt': Option<seq<Tile>>)
    requires cols == Index(tiles) && CandidatesIndexed(tiles, dirt)
    ensures dirt'.Some? && (tiles', dirt'.value) == DirtRound(tiles, dirt)
    ensures cols' == Index(tiles') && CandidatesIndexed(tiles', dirt')
  {
    IndexBelow(tiles);
    var cands := if dirt.None? then GrassOf(tiles, |tiles|) else dirt.value;
    assert cands == Candidates(tiles, dirt);
    var d := GenerateDirt(tiles, cols, cands);
    DirtIndexed(tiles, d);
    cols' := IndexDirt(tiles, cols, d);
    tiles' := tiles + d;
    dirt' := Some(d);
  }

  /** The `maxDepth = WORLD_HEIGHT` loop of `generate`. */
  method AddDirt(tiles: seq<Tile>, cols: Columns) returns (tiles': seq<Tile>, cols': Columns)
    requires cols == Index(tiles)
    ensures tiles' == DirtRounds(tiles, WORLD_HEIGHT).0 && cols' == Index(tiles')
  {
    tiles', cols' := tiles, cols;
    var dirt: Option<seq<Tile>> := None;
    GrassIndexed(tiles);
    var i := 0;
    while i < WORLD_HEIGHT
      invariant 0 <= i <= WORLD_HEIGHT
      invariant (tiles', dirt) == DirtRounds(tiles, i) && cols' == Index(tiles')
      invariant CandidatesIndexed(tiles', dirt)
    {
      tiles', cols', dirt := DirtStep(tiles', cols', dirt);
      i := i + 1;
    }
  }

  lemma GrassIndexed(tiles: seq<Tile>)
    ensures CandidatesIndexed(tiles, None)
  {
    GrassFromTiles(tiles, |tiles|);
    IndexOfMembers(tiles, |tiles|);
  }

  lemma DirtIndexed(tiles: seq<Tile>, d: seq<Tile>)
    ensures CandidatesIndexed(tiles + d, Some(d))
  {
    IndexOfMembers(tiles + d, |tiles + d|);
    forall k | 0 <= k < |d|
      ensures TileKey(d[k]) in Index(tiles + d)
    {
      assert (tiles + d)[|tiles| + k] == d[k];
    }
  }

  /* ---------- Properties ---------- */

  /** Every GRASS candidate is a tile of the list at a lower index. */
  lemma {:induction false} GrassFromTiles(tiles: seq<Tile>, n: nat)
    requires n <= |tiles|
    ensures forall k :: 0 <= k < |GrassOf(tiles, n)| ==>
      GrassOf(tiles, n)[k].kind == Grass && exists i :: 0 <= i < n && GrassOf(tiles, n)[k] == tiles[i]
  {
    if n > 0 {
      GrassFromTiles(tiles, n - 1);
      var g, prev := GrassOf(tiles, n), GrassOf(tiles, n - 1);
      forall k | 0 <= k < |g|
        ensures g[k].kind == Grass && exists i :: 0 <= i < n && g[k] == tiles[i]
      {
        if k < |prev| {
          assert g[k] == prev[k];
          var i :| 0 <= i < n - 1 && prev[k] == tiles[i];
        } else {
          assert g[k] == tiles[n - 1];
        }
      }
    }
  }

  /** No two tiles of the list share a column. */
  predicate DistinctKeys(s: seq<Tile>) {
    forall i, j :: 0 <= i < j < |s| ==> TileKey(s[i]) != TileKey(s[j])
  }

  /** No column holds two tiles at the same height. */
  predicate Unstacked(s: seq<Tile>) {
    forall i, j :: 0 <= i < j < |s| && TileKey(s[i]) == TileKey(s[j]) ==> s[i].y != s[j].y
  }

  lemma {:induction false} GrassDistinct(tiles: seq<Tile>, n: nat)
    requires n <= |tiles| && DistinctKeys(tiles)
    ensures DistinctKeys(GrassOf(tiles, n))
  {
    if n > 0 {
      GrassDistinct(tiles, n - 1);
      GrassFromTiles(tiles, n - 1);
      var g, prev := GrassOf(tiles, n), GrassOf(tiles, n - 1);
      if tiles[n - 1].kind == Grass {
        forall k | 0 <= k < |prev|
          ensures TileKey(prev[k]) != TileKey(tiles[n - 1])
        {
          var i :| 0 <= i < n - 1 && prev[k] == tiles[i];
        }
      }
    }
  }

  /** The indices of the candidates that `generateDirt` emits dirt for, in order. */
  function DirtOrigins(tiles: seq<Tile>, cols: Columns, cands: seq<Tile>, n: nat): seq<nat>
    requires IndicesBelow(cols, |tiles|) && n <= |cands|
  {
    if n == 0 then []
    else DirtOrigins(tiles, cols, cands, n - 1) + (if NeedsDirt(tiles, cols, cands[n - 1]) then [n - 1] else [])
  }

  /** The k-th dirt tile lies under the candidate of the k-th origin, which needed it. */
  lemma {:induction false} DirtFromCandidates(tiles: seq<Tile>, cols: Columns, cands: seq<Tile>, n: nat)
    requires IndicesBelow(cols, |tiles|) && n <= |cands|
    ensures |DirtOrigins(tiles, cols, cands, n)| == |DirtOf(tiles, cols, cands, n)|
    ensures forall k :: 0 <= k < |DirtOrigins(tiles, cols, cands, n)| ==>
      DirtOrigins(tiles, cols, cands, n)[k] < n &&
      NeedsDirt(tiles, cols, cands[DirtOrigins(tiles, cols, cands, n)[k]]) &&
      DirtOf(tiles, cols, cands, n)[k] == DirtUnder(cands[DirtOrigins(tiles, cols, cands, n)[k]])
  {
    if n > 0 {
      DirtFromCandidates(tiles, cols, cands, n - 1);
      var po, pd := DirtOrigins(tiles, cols, cands, n - 1), DirtOf(tiles, cols, cands, n - 1);
      if NeedsDirt(tiles, cols, cands[n - 1]) {
        var o, d := po + [n - 1], pd + [DirtUnder(cands[n - 1])];
        assert DirtOrigins(tiles, cols, cands, n) == o && DirtOf(tiles, cols, cands, n) == d;
        assert forall k :: 0 <= k < |po| ==> o[k] == po[k] && d[k] == pd[k];
      } else {
        assert DirtOrigins(tiles, cols, cands, n) == po && DirtOf(tiles, cols, cands, n) == pd;
      }
    }
  }

  /**
   * The converse: a candidate is an origin exactly when it needs dirt, and every
   * candidate that needs dirt gets its tile.
   */
  lemma {:induction false} DirtOfComplete(tiles: seq<Tile>, cols: Columns, cands: seq<Tile>, n: nat)
    requires IndicesBelow(cols, |tiles|) && n <= |cands|
    ensures forall i :: 0 <= i < n ==> (i in DirtOrigins(tiles, cols, cands, n) <==> NeedsDirt(tiles, cols, cands[i]))
    ensures forall i :: 0 <= i < n && NeedsDirt(tiles, cols, cands[i]) ==> DirtUnder(cands[i]) in DirtOf(tiles, cols, cands, n)
  {
    if n > 0 {
      DirtOfComplete(tiles, cols, cands, n - 1);
      DirtOriginsAscending(tiles, cols, cands, n - 1);
      var po, pd := DirtOrigins(tiles, cols, cands, n - 1), DirtOf(tiles, cols, cands, n - 1);
      var o, d := DirtOrigins(tiles, cols, cands, n), DirtOf(tiles, cols, cands, n);
      if NeedsDirt(tiles, cols, cands[n - 1]) {
        assert o == po + [n - 1] && d == pd + [DirtUnder(cands[n - 1])];
        assert d[|pd|] == DirtUnder(cands[n - 1]);
      } else {
        assert o == po && d == pd;
        assert n - 1 !in po;
      }
      forall i | 0 <= i < n - 1 && NeedsDirt(tiles, cols, cands[i])
        ensures DirtUnder(cands[i]) in d
      {
        assert DirtUnder(cands[i]) in pd;
      }
    }
  }

  /** Origins increase, so no candidate yields two dirt tiles. */
  lemma {:induction false} DirtOriginsAscending(tiles: seq<Tile>, cols: Columns, cands: seq<Tile>, n: nat)
    requires IndicesBelow(cols, |tiles|) && n <= |cands|
    ensures Ascending(DirtOrigins(tiles, cols, cands, n))
    ensures forall k :: 0 <= k < |DirtOrigins(tiles, cols, cands, n)| ==> DirtOrigins(tiles, cols, cands, n)[k] < n
  {
    if n > 0 {
      DirtOriginsAscending(tiles, cols, cands, n - 1);
      var po := DirtOrigins(tiles, cols, cands, n - 1);
      if NeedsDirt(tiles, cols, cands[n - 1]) {
        assert DirtOrigins(tiles, cols, cands, n) == po + [n - 1];
      }
    }
  }

  /** Candidates in distinct columns give dirt in distinct columns. */
  lemma DirtDistinct(tiles: seq<Tile>, cols: Columns, cands: seq<Tile>)
    requires IndicesBelow(cols, |tiles|) && DistinctKeys(cands)
    ensures DistinctKeys(DirtOf(tiles, cols, cands, |cands|))
  {
    var n := |cands|;
    DirtFromCandidates(tiles, cols, cands, n);
    DirtOriginsAscending(tiles, cols, cands, n);
    var d, o := DirtOf(tiles, cols, cands, n), DirtOrigins(tiles, cols, cands, n);
    forall i, j | 0 <= i < j < |d|
      ensures TileKey(d[i]) != TileKey(d[j])
    {
      assert o[i] < o[j];
      assert TileKey(d[i]) == TileKey(cands[o[i]]);
      assert TileKey(d[j]) == TileKey(cands[o[j]]);
    }
  }

  /** The column list of a key holds exactly the tiles of the list in that column. */
  lemma ColumnHasTile(tiles: seq<Tile>, i: nat)
    requires i < |tiles|
    ensures IndicesBelow(Index(tiles), |tiles|)
    ensures exists k :: (0 <= k < |ColumnTiles(tiles, Index(tiles), TileKey(tiles[i]))| &&
      ColumnTiles(tiles, Index(tiles), TileKey(tiles[i]))[k] == tiles[i])
  {
    IndexOfMembers(tiles, |tiles|);
    IndexBelow(tiles);
    var cols := Index(tiles);
    var key := TileKey(tiles[i]);
    var k :| 0 <= k < |cols[key]| && cols[key][k] == i;
    assert ColumnTiles(tiles, cols, key)[k] == tiles[i];
  }

  lemma AppendIndex(a: seq<Tile>, b: seq<Tile>)
    ensures forall i :: 0 <= i < |a| ==> (a + b)[i] == a[i]
    ensures forall k :: 0 <= k < |b| ==> (a + b)[|a| + k] == b[k]
  {
  }

  /** New dirt never sits at the height of a tile already in its column. */
  lemma NewDirtNotStacked(tiles: seq<Tile>, cands: seq<Tile>, i: nat, k: nat)
    requires IndicesBelow(Index(tiles), |tiles|)
    requires i < |tiles| && k < |DirtOf(tiles, Index(tiles), cands, |cands|)|
    requires TileKey(tiles[i]) == TileKey(DirtOf(tiles, Index(tiles), cands, |cands|)[k])
    ensures tiles[i].y != DirtOf(tiles, Index(tiles), cands, |cands|)[k].y
  {
    var cols := Index(tiles);
    var d := DirtOf(tiles, cols, cands, |cands|);
    DirtFromCandidates(tiles, cols, cands, |cands|);
    var c := cands[DirtOrigins(tiles, cols, cands, |cands|)[k]];
    assert NeedsDirt(tiles, cols, c) && d[k] == DirtUnder(c);
    ColumnHasTile(tiles, i);
  }

  /**
   * A round keeps columns free of two tiles at one height, given candidates in distinct
   * columns; the new candidates (the dirt just added) are in distinct columns again.
   */
  lemma RoundUnstacked(tiles: seq<Tile>, cands: seq<Tile>)
    requires Unstacked(tiles) && DistinctKeys(cands)
    ensures IndicesBelow(Index(tiles), |tiles|)
    ensures Unstacked(tiles + DirtOf(tiles, Index(tiles), cands, |cands|))
    ensures DistinctKeys(DirtOf(tiles, Index(tiles), cands, |cands|))
  {
    IndexBelow(tiles);
    var cols := Index(tiles);
    var d := DirtOf(tiles, cols, cands, |cands|);
    DirtDistinct(tiles, cols, cands);
    AppendIndex(tiles, d);
    var all := tiles + d;
    forall i, j | 0 <= i < j < |all| && TileKey(all[i]) == TileKey(all[j])
      ensures all[i].y != all[j].y
    {
      if i < |tiles| <= j {
        NewDirtNotStacked(tiles, cands, i, j - |tiles|);
      }
    }
  }

  /** Candidates in distinct columns and no column with two tiles at one height. */
  predicate Orderly(tiles: seq<Tile>, last: Option<seq<Tile>>) {
    Unstacked(tiles) && DistinctKeys(Candidates(tiles, last))
  }

  /**
   * Starting from tiles in distinct columns (one per column, as the grid lays them
   * out), no round ever puts two tiles of one column at the same height.
   */
  lemma {:induction false} RoundsUnstacked(tiles: seq<Tile>, n: nat)
    requires DistinctKeys(tiles)
    ensures Orderly(DirtRounds(tiles, n).0, DirtRounds(tiles, n).1)
  {
    if n == 0 {
      GrassDistinct(tiles, |tiles|);
    } else {
      RoundsUnstacked(tiles, n - 1);
      var prev := DirtRounds(tiles, n - 1);
      RoundUnstacked(prev.0, Candidates(prev.0, prev.1));
    }
  }

  lemma {:induction false} DirtOfIsDirt(tiles: seq<Tile>, cols: Columns, cands: seq<Tile>, n: nat)
    requires IndicesBelow(cols, |tiles|) && n <= |cands|
    ensures forall k :: 0 <= k < |DirtOf(tiles, cols, cands, n)| ==> DirtOf(tiles, cols, cands, n)[k].kind == Dirt
  {
    if n > 0 {
      DirtOfIsDirt(tiles, cols, cands, n - 1);
    }
  }

  /** A round appends its dirt list, all DIRT, to the tiles. */
  lemma RoundAppends(tiles: seq<Tile>, last: Option<seq<Tile>>)
    ensures DirtRound(tiles, last).0 == tiles + DirtRound(tiles, last).1
    ensures forall k :: 0 <= k < |DirtRound(tiles, last).1| ==> DirtRound(tiles, last).1[k].kind == Dirt
  {
    IndexBelow(tiles);
    var cands := Candidates(tiles, last);
    DirtOfIsDirt(tiles, Index(tiles), cands, |cands|);
  }

  /**
   * The dirt rounds only append: the tiles before them are a prefix of the result, and
   * every appended tile is DIRT.
   */
  lemma {:induction false} RoundsOnlyAppend(tiles: seq<Tile>, n: nat)
    ensures |DirtRounds(tiles, n).0| >= |tiles| && DirtRounds(tiles, n).0[..|tiles|] == tiles
    ensures forall i :: |tiles| <= i < |DirtRounds(tiles, n).0| ==> DirtRounds(tiles, n).0[i].kind == Dirt
  {
    if n > 0 {
      RoundsOnlyAppend(tiles, n - 1);
      var prev := DirtRounds(tiles, n - 1);
      RoundAppends(prev.0, prev.1);
      var d := DirtRound(prev.0, prev.1).1;
      AppendIndex(prev.0, d);
      assert DirtRounds(tiles, n).0 == prev.0 + d;
      assert (prev.0 + d)[..|tiles|] == prev.0[..|tiles|];
    }
  }

  /** Every tile of the list, and every candidate, is at a position satisfying Q. */
  ghost predicate PlacedBy(Q: (int, int) -> bool, tiles: seq<Tile>, last: Option<seq<Tile>>) {
    (forall i :: 0 <= i < |tiles| ==> Q(tiles[i].hx, tiles[i].hz)) &&
    forall k :: 0 <= k < |Candidates(tiles, last)| ==> Q(Candidates(tiles, last)[k].hx, Candidates(tiles, last)[k].hz)
  }

  /** One round keeps PlacedBy: each new dirt tile has its candidate's position. */
  lemma RoundKeepsPlaces(Q: (int, int) -> bool, tiles: seq<Tile>, last: Option<seq<Tile>>)
    requires PlacedBy(Q, tiles, last)
    ensures PlacedBy(Q, DirtRound(tiles, last).0, Some(DirtRound(tiles, last).1))
  {
    IndexBelow(tiles);
    var cands := Candidates(tiles, last);
    var d := DirtOf(tiles, Index(tiles), cands, |cands|);
    DirtFromCandidates(tiles, Index(tiles), cands, |cands|);
    var o := DirtOrigins(tiles, Index(tiles), cands, |cands|);
    assert forall k :: 0 <= k < |d| ==> d[k].hx == cands[o[k]].hx && d[k].hz == cands[o[k]].hz;
    AppendIndex(tiles, d);
  }

  /** Dirt goes only under existing tiles: any property of the positions survives the rounds. */
  lemma {:induction false} RoundsKeepPlaces(Q: (int, int) -> bool, tiles: seq<Tile>, n: nat)
    requires forall i :: 0 <= i < |tiles| ==> Q(tiles[i].hx, tiles[i].hz)
    ensures PlacedBy(Q, DirtRounds(tiles, n).0, DirtRounds(tiles, n).1)
  {
    if n == 0 {
      GrassFromTiles(tiles, |tiles|);
    } else {
      RoundsKeepPlaces(Q, tiles, n - 1);
      var prev := DirtRounds(tiles, n - 1);
      RoundKeepsPlaces(Q, prev.0, prev.1);
    }
  }
}
