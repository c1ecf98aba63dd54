/**
 * The page's tile store (resources/Drawable.mjs, `TileManager` and `Vehicle`): the list
 * of drawn tiles, kept sorted by depth, and a hash from each column to the tiles in it;
 * the lookup of one tile, the tile under the cursor, and a vehicle that climbs onto the
 * top of its column.
 */
module TileManagers {
  import opened Wrappers
  import opened Terrain
  import D = Drawables
  import Sorting
  import W = Worlds

  /* ---------- The column hash ---------- */

  type Hashes = map<ColumnKey, seq<D.Tile>>

  /** `tileHashes[hash]?.includes(t)` */
  predicate Includes(h: Hashes, t: D.Tile) {
    t.Column() in h && t in h[t.Column()]
  }

  /** One step of the `forEach`: push `t` into its column unless it is already there. */
  function Add(h: Hashes, t: D.Tile): Hashes {
    var k := t.Column();
    if Includes(h, t) then h else h[k := (if k in h then h[k] else []) + [t]]
  }

  /** The `forEach` over `ts`, in order. */
  function AddAll(h: Hashes, ts: seq<D.Tile>): Hashes {
    if ts == [] then h else Add(AddAll(h, ts[..|ts| - 1]), ts[|ts| - 1])
  }

  /** Every column lists at least one tile, and only tiles of that column. */
  predicate Hashed(h: Hashes) {
    forall k :: k in h ==> |h[k]| > 0 && forall j :: 0 <= j < |h[k]| ==> h[k][j].Column() == k
  }

  /** No column lists one tile object twice. */
  predicate Distinct(h: Hashes) {
    forall k :: k in h ==> forall i, j :: 0 <= i < j < |h[k]| ==> h[k][i] != h[k][j]
  }

  /** Every old column is still there and starts with its old list. */
  predicate Extends(h: Hashes, r: Hashes) {
    forall k :: k in h ==> k in r && h[k] <= r[k]
  }

  /** Every tile `r` lists was listed by `h` or is one of `ts`. */
  predicate ListsOnly(r: Hashes, h: Hashes, ts: seq<D.Tile>) {
    forall k :: k in r ==> forall j :: 0 <= j < |r[k]| ==> (k in h && r[k][j] in h[k]) || r[k][j] in ts
  }

  lemma AddKeeps(h: Hashes, t: D.Tile)
    requires Hashed(h) && Distinct(h)
    ensures var r := Add(h, t);
      Hashed(r) && Distinct(r) && Extends(h, r) && Includes(r, t) && ListsOnly(r, h, [t])
  {
    var k := t.Column();
    if !Includes(h, t) {
      var l := if k in h then h[k] else [];
      assert forall j :: 0 <= j < |l| ==> (l + [t])[j] == l[j];
    }
  }

  /**
   * Adding a list of tiles keeps the hash well formed and every old list as a prefix,
   * and lists each added tile in its column.
   */
  lemma {:induction false} AddAllKeeps(h: Hashes, ts: seq<D.Tile>)
    requires Hashed(h) && Distinct(h)
    ensures var r := AddAll(h, ts);
      Hashed(r) && Distinct(r) && Extends(h, r) && forall i :: 0 <= i < |ts| ==> Includes(r, ts[i])
  {
    if ts != [] {
      var front, last := ts[..|ts| - 1], ts[|ts| - 1];
      AddAllKeeps(h, front);
      var m := AddAll(h, front);
      AddKeeps(m, last);
      var r := Add(m, last);
      forall i | 0 <= i < |ts|
        ensures Includes(r, ts[i])
      {
        if i < |front| {
          assert ts[i] == front[i] && Includes(m, front[i]);
          assert m[front[i].Column()] <= r[front[i].Column()];
        }
      }
    }
  }

  /** Adding a list of tiles lists nothing but the old tiles and the added ones. */
  lemma {:induction false} AddAllListsOnly(h: Hashes, ts: seq<D.Tile>)
    requires Hashed(h) && Distinct(h)
    ensures ListsOnly(AddAll(h, ts), h, ts)
  {
    if ts != [] {
      var front, last := ts[..|ts| - 1], ts[|ts| - 1];
      AddAllListsOnly(h, front);
      AddAllKeeps(h, front);
      var m := AddAll(h, front);
      AddKeeps(m, last);
      var r := Add(m, last);
      forall k, j | k in r && 0 <= j < |r[k]|
        ensures (k in h && r[k][j] in h[k]) || r[k][j] in ts
      {
        if r[k][j] != last {
          assert k in m && r[k][j] in m[k];
          var j' :| 0 <= j' < |m[k]| && m[k][j'] == r[k][j];
          assert r[k][j] in front ==> r[k][j] in ts;
        }
      }
    }
  }

  /** Adding tiles that are all listed already changes nothing. */
  lemma {:induction false} AddAllListed(h: Hashes, ts: seq<D.Tile>)
    requires forall i :: 0 <= i < |ts| ==> Includes(h, ts[i])
    ensures AddAll(h, ts) == h
  {
    if ts != [] {
      AddAllListed(h, ts[..|ts| - 1]);
    }
  }

  /** The rebuild of the hash is idempotent: a second pass over the same tiles adds nothing. */
  lemma AddAllIdempotent(h: Hashes, ts: seq<D.Tile>)
    requires Hashed(h) && Distinct(h)
    ensures AddAll(AddAll(h, ts), ts) == AddAll(h, ts)
  {
    AddAllKeeps(h, ts);
    AddAllListed(AddAll(h, ts), ts);
  }

  /* ---------- Lookup ---------- */

  /** `t.y == y` in JavaScript: NaN equals nothing. */
  predicate SameHeight(a: Height, b: Height) {
    a.Tenths? && a == b
  }

  /** The index `find(t => t.y == y)` stops at, if any. */
  function FindHeight(s: seq<D.Tile>, y: Height): (r: Option<nat>)
    ensures r.Some? ==>
      r.value < |s| && SameHeight(s[r.value].y, y) && forall j :: 0 <= j < r.value ==> !SameHeight(s[j].y, y)
    ensures r.None? ==> forall j :: 0 <= j < |s| ==> !SameHeight(s[j].y, y)
  {
    if s == [] then None
    else if SameHeight(s[0].y, y) then Some(0)
    else
      match FindHeight(s[1..], y)
      case None => None
      case Some(j) => Some(j + 1)
  }

  /** The highest height in a non-empty column: `Math.max(...ys)`, NaN once one is NaN. */
  function Top(s: seq<D.Tile>): Height
    requires s != []
  {
    if |s| == 1 then s[0].y else W.JsMax(Top(s[..|s| - 1]), s[|s| - 1].y)
  }

  /**
   * With numeric heights the column's top is the height of one of its tiles and no
   * tile is higher; one NaN height makes it NaN.
   */
  lemma {:induction false} TopIsHighest(s: seq<D.Tile>)
    requires s != []
    ensures (forall i :: 0 <= i < |s| ==> s[i].y.Tenths?) ==>
      Top(s).Tenths? && (exists i :: 0 <= i < |s| && s[i].y == Top(s)) &&
      forall i :: 0 <= i < |s| ==> s[i].y.v <= Top(s).v
    ensures (exists i :: 0 <= i < |s| && s[i].y.NaN?) ==> Top(s).NaN?
  {
    if |s| > 1 {
      var front := s[..|s| - 1];
      TopIsHighest(front);
      assert forall i :: 0 <= i < |front| ==> front[i] == s[i];
      if exists i :: 0 <= i < |s| && s[i].y.NaN? {
        var i :| 0 <= i < |s| && s[i].y.NaN?;
        if i < |front| {
          assert front[i].y.NaN?;
        }
      }
      if (forall i :: 0 <= i < |s| ==> s[i].y.Tenths?) {
        var i :| 0 <= i < |front| && front[i].y == Top(front);
        if Top(s) == Top(front) {
          assert s[i].y == Top(s);
        } else {
          assert s[|s| - 1].y == Top(s);
        }
      }
    }
  }

  /* ---------- Candidates under the cursor ---------- */

  /** `tiles.filter(t => t.contains(screenX, screenY))`, in order. */
  function Candidates(ts: seq<D.Tile>, contains: D.Tile -> bool): (c: seq<D.Tile>)
    ensures |c| <= |ts|
    ensures forall i :: 0 <= i < |c| ==> c[i] in ts && contains(c[i])
    ensures forall i :: 0 <= i < |ts| && contains(ts[i]) ==> ts[i] in c
  {
    if ts == [] then []
    else
      var last := ts[|ts| - 1];
      assert ts == ts[..|ts| - 1] + [last];
      Candidates(ts[..|ts| - 1], contains) + (if contains(last) then [last] else [])
  }

  /** The key of `(a, b) => b.y - a.y`: descending height. */
  function DownY(t: D.Tile): Height {
    Sorting.Neg(t.y)
  }

  /** The key of `(a, b) => b.z - a.z`: descending depth. */
  function DownZ(t: D.Tile): Height {
    Tenths(-t.hz)
  }

  /** The candidates sorted by height and then by depth, both descending. */
  function Frontmost(c: seq<D.Tile>): seq<D.Tile> {
    Sorting.SortBy(Sorting.SortBy(c, DownY), DownZ)
  }

  /** Sorting the candidates keeps them: the first tile of `Frontmost` is one of them. */
  lemma FrontmostIn(c: seq<D.Tile>)
    ensures c != [] ==> Frontmost(c)[0] in c
  {
    Sorting.SortPermutes(c, DownY);
    Sorting.SortPermutes(Sorting.SortBy(c, DownY), DownZ);
    if c != [] {
      assert Frontmost(c)[0] in multiset(Frontmost(c));
    }
  }

  /**
   * The first tile of `Frontmost` is a candidate nearest the viewer: no candidate has a
   * greater z, and none with the same z is higher.
   */
  lemma FrontmostFirst(c: seq<D.Tile>)
    requires c != [] && forall i :: 0 <= i < |c| ==> c[i].y.Tenths?
    ensures Frontmost(c)[0] in c
    ensures forall i :: 0 <= i < |c| ==>
      c[i].hz < Frontmost(c)[0].hz || (c[i].hz == Frontmost(c)[0].hz && c[i].y.v <= Frontmost(c)[0].y.v)
  {
    var f := Frontmost(c);
    assert Sorting.Numbers(c, DownY);
    assert Sorting.Numbers(c, DownZ);
    Sorting.TwoSorts(c, DownZ, DownY);
    assert f[0] in multiset(f);
    forall i | 0 <= i < |c|
      ensures c[i].hz < f[0].hz || (c[i].hz == f[0].hz && c[i].y.v <= f[0].y.v)
    {
      assert c[i] in multiset(c);
      var j :| 0 <= j < |f| && f[j] == c[i];
      if j > 0 {
        assert DownZ(f[0]).v < DownZ(f[j]).v || (DownZ(f[0]).v == DownZ(f[j]).v && DownY(f[0]).v <= DownY(f[j]).v);
      }
    }
  }

  /* ---------- The tile manager ---------- */

  /** The static state of `TileManager`: `#tiles` and `#tileHashes`. */
  class TileManager {
    var tiles: seq<D.Tile>
    var hashes: Hashes

    /**
     * The hash lists exactly the loaded tiles, each once and in its own column, and
     * every listed column is non-empty.
     */
    predicate Valid()
      reads this
    {
      Hashed(hashes) && Distinct(hashes) &&
      (forall k :: k in hashes ==> forall j :: 0 <= j < |hashes[k]| ==> hashes[k][j] in tiles) &&
      forall i :: 0 <= i < |tiles| ==> Includes(hashes, tiles[i])
    }

    constructor ()
      ensures tiles == [] && hashes == map[] && Valid()
    {
      tiles := [];
      hashes := map[];
    }

    /**
     * `TileManager.getTile(x, y, z)`: the first tile of the column with height y. A
     * column that was never hashed makes the lookup throw.
     */
    function GetTile(hx: int, y: Height, hz: int): (r: Result<Option<D.Tile>>)
      reads this
      ensures r.Throws? <==> KeyOf(hx, hz) !in hashes
      ensures r.Ok? && r.value.Some? ==>
        r.value.value in hashes[KeyOf(hx, hz)] && SameHeight(r.value.value.y, y)
      ensures r.Ok? && r.value.Some? ==> var col := hashes[KeyOf(hx, hz)];
        exists j :: 0 <= j < |col| && col[j] == r.value.value &&
          forall j' :: 0 <= j' < j ==> !SameHeight(col[j'].y, y)
      ensures r.Ok? && r.value.None? ==>
        forall j :: 0 <= j < |hashes[KeyOf(hx, hz)]| ==> !SameHeight(hashes[KeyOf(hx, hz)][j].y, y)
    {
      var k := KeyOf(hx, hz);
      if k !in hashes then Throws("TypeError: Cannot read properties of undefined (reading 'find')")
      else
        match FindHeight(hashes[k], y)
        case None => Ok(None)
        case Some(j) => Ok(Some(hashes[k][j]))
    }

    /**
     * On a valid manager, a loaded tile with a numeric height is found by its own
     * position and height (the first of its column with that height).
     */
    lemma GetTileFindsLoaded(i: nat)
      requires Valid() && i < |tiles| && tiles[i].y.Tenths?
      ensures var t := tiles[i]; var r := GetTile(t.hx, t.y, t.hz);
        r.Ok? && r.value.Some? && r.value.value.hx == t.hx && r.value.value.hz == t.hz && r.value.value.y == t.y
    {
      var t := tiles[i];
      assert Includes(hashes, t);
      var k := t.Column();
      var j :| 0 <= j < |hashes[k]| && hashes[k][j] == t;
      var r := GetTile(t.hx, t.y, t.hz);
      var u := r.value.value;
      var j' :| 0 <= j' < |hashes[k]| && hashes[k][j'] == u;
      assert u.Column() == k;
    }

    /**
     * `TileManager.generate(...)` once `World.generate` has resolved with `loaded`:
     * append them, sort by y and then by z, push every tile not yet hashed into its
     * column, move the camera by nothing and clear `generatingTerrain`. The move re-clamps
     * an unclamped camera, and the strip it may ask for is returned.
     */
    method Generate(loaded: seq<D.Tile>, camera: W.Camera, minScreen: W.Point, maxScreen: W.Point)
      returns (request: Option<W.Request>)
      requires Valid()
      modifies this, camera
      ensures Valid()
      ensures tiles == Sorting.SortBy(Sorting.SortBy(old(tiles) + loaded, D.YOf), D.ZOf)
      ensures multiset(tiles) == multiset(old(tiles) + loaded)
      ensures hashes == AddAll(old(hashes), tiles) && Extends(old(hashes), hashes)
      ensures camera.zoom == old(camera.zoom) && !camera.generatingTerrain && camera.Clamped()
      ensures old(camera.Clamped()) ==> camera.x == old(camera.x) && camera.z == old(camera.z)
      ensures var cx, cz := W.Clamp(old(camera.x), old(camera.MaxX(camera.zoom))), W.Clamp(old(camera.z), old(camera.MaxZ(camera.zoom)));
        camera.x == cx && camera.z == cz &&
        request == (if (old(camera.x) == cx && old(camera.z) == cz) || old(camera.generatingTerrain) then None
                    else W.EdgeRequest(tiles, minScreen, maxScreen, cx, cz, camera.clientWidth, camera.clientHeight))
    {
      AddLoaded(loaded);
      request := camera.MoveBy(0.0, 0.0, tiles, minScreen, maxScreen);
      camera.generatingTerrain := false;
    }

    /** The tile part of `generate`: append, sort by y and then by z, hash the new tiles. */
    method AddLoaded(loaded: seq<D.Tile>)
      requires Valid()
      modifies this
      ensures Valid()
      ensures tiles == Sorting.SortBy(Sorting.SortBy(old(tiles) + loaded, D.YOf), D.ZOf)
      ensures multiset(tiles) == multiset(old(tiles) + loaded)
      ensures hashes == AddAll(old(hashes), tiles) && Extends(old(hashes), hashes)
    {
      tiles := tiles + loaded;
      Sorting.SortPermutes(tiles, D.YOf);
      Sorting.SortPermutes(Sorting.SortBy(tiles, D.YOf), D.ZOf);
      tiles := Sorting.SortBy(Sorting.SortBy(tiles, D.YOf), D.ZOf);
      ghost var h0 := hashes;
      AddToHashes(tiles);
      GenerateKeepsValid(h0, old(tiles), loaded, tiles);
    }

    /** The `forEach` of `generate`: push every tile of `ts` not yet hashed into its column. */
    method AddToHashes(ts: seq<D.Tile>)
      modifies this
      ensures hashes == AddAll(old(hashes), ts) && tiles == old(tiles)
    {
      var i := 0;
      while i < |ts|
        invariant 0 <= i <= |ts|
        invariant hashes == AddAll(old(hashes), ts[..i]) && tiles == old(tiles)
      {
        assert ts[..i + 1][..i] == ts[..i];
        hashes := Add(hashes, ts[i]);
        i := i + 1;
      }
      assert ts[..|ts|] == ts;
    }

    /**
     * `TileManager.getHighlightedTile(screenX, screenY)`: clear every tile's hover flag,
     * keep the tiles the cursor is over, and return the one nearest the viewer, or the
     * cursor's selected tile when there is none. `contains` is the screen geometry of
     * `Drawable.contains` at the cursor position.
     */
    method GetHighlightedTile(contains: D.Tile -> bool, fallback: Option<D.Tile>) returns (r: Option<D.Tile>)
      modifies tiles
      ensures forall i :: 0 <= i < |tiles| ==> !tiles[i].selected
      ensures var c := Candidates(tiles, contains);
        if c == [] then r == fallback else r == Some(Frontmost(c)[0]) && r.value in tiles
    {
      var c := ClearSelection(contains);
      var sorted := Sorting.SortBy(Sorting.SortBy(c, DownY), DownZ);
      FrontmostIn(c);
      if |sorted| > 0 {
        r := Some(sorted[0]);
      } else {
        r := fallback;
      }
    }

    /** The loop of `getHighlightedTile`: clear each hover flag and keep the tiles under the cursor. */
    method ClearSelection(contains: D.Tile -> bool) returns (c: seq<D.Tile>)
      modifies tiles
      ensures c == Candidates(tiles, contains)
      ensures forall i :: 0 <= i < |tiles| ==> !tiles[i].selected
    {
      c := [];
      var i := 0;
      while i < |tiles|
        invariant 0 <= i <= |tiles|
        invariant c == Candidates(tiles[..i], contains)
        invariant forall j :: 0 <= j < i ==> !tiles[j].selected
      {
        assert tiles[..i + 1][..i] == tiles[..i];
        var t := tiles[i];
        t.selected := false;
        if contains(t) {
          c := c + [t];
        }
        i := i + 1;
      }
      assert tiles[..|tiles|] == tiles;
    }
  }

  /** The hash `Generate` builds is valid for the sorted list. */
  lemma GenerateKeepsValid(h0: Hashes, before: seq<D.Tile>, loaded: seq<D.Tile>, after: seq<D.Tile>)
    requires Hashed(h0) && Distinct(h0)
    requires forall k :: k in h0 ==> forall j :: 0 <= j < |h0[k]| ==> h0[k][j] in before
    requires multiset(after) == multiset(before + loaded)
    ensures var h := AddAll(h0, after);
      Hashed(h) && Distinct(h) && Extends(h0, h) &&
      (forall k :: k in h ==> forall j :: 0 <= j < |h[k]| ==> h[k][j] in after) &&
      forall i :: 0 <= i < |after| ==> Includes(h, after[i])
  {
    var h := AddAll(h0, after);
    AddAllKeeps(h0, after);
    AddAllListsOnly(h0, after);
    forall k, j | k in h && 0 <= j < |h[k]|
      ensures h[k][j] in after
    {
      if k in h0 && h[k][j] in h0[k] {
        var j' :| 0 <= j' < |h0[k]| && h0[k][j'] == h[k][j];
        assert h[k][j] in before;
        assert h[k][j] in multiset(before + loaded);
      }
    }
  }

  lemma CandidatesNumeric(ts: seq<D.Tile>, contains: D.Tile -> bool)
    requires forall i :: 0 <= i < |ts| ==> ts[i].y.Tenths?
    ensures forall i :: 0 <= i < |Candidates(ts, contains)| ==> Candidates(ts, contains)[i].y.Tenths?
  {
    var c := Candidates(ts, contains);
    forall i | 0 <= i < |c|
      ensures c[i].y.Tenths?
    {
      var j :| 0 <= j < |ts| && ts[j] == c[i];
    }
  }

  /**
   * When every candidate has a numeric height, the highlighted tile is a tile the
   * cursor is over, with no such tile in front of it or, at the same depth, above it.
   */
  lemma HighlightedIsFrontmost(ts: seq<D.Tile>, contains: D.Tile -> bool)
    requires Candidates(ts, contains) != []
    requires forall i :: 0 <= i < |ts| ==> ts[i].y.Tenths?
    ensures var h := Frontmost(Candidates(ts, contains))[0];
      h in ts && contains(h) &&
      forall i :: 0 <= i < |ts| && contains(ts[i]) ==>
        ts[i].hz < h.hz || (ts[i].hz == h.hz && ts[i].y.v <= h.y.v)
  {
    var c := Candidates(ts, contains);
    CandidatesNumeric(ts, contains);
    FrontmostFirst(c);
    var h := Frontmost(c)[0];
    var k :| 0 <= k < |c| && c[k] == h;
    forall i | 0 <= i < |ts| && contains(ts[i])
      ensures ts[i].hz < h.hz || (ts[i].hz == h.hz && ts[i].y.v <= h.y.v)
    {
      var j :| 0 <= j < |c| && c[j] == ts[i];
    }
  }

  /* ---------- Vehicles ---------- */

  /** A vehicle: its position changes as it moves, its height follows the ground. */
  class Vehicle {
    var hx: int
    var y: Height
    var hz: int

    constructor (hx: int, y: Height, hz: int)
      ensures this.hx == hx && this.y == y && this.hz == hz
    {
      this.hx, this.y, this.hz := hx, y, hz;
    }

    /**
     * `Vehicle.moveTo(x, z)`: take the new position, then sit one above the highest
     * tile of that column. A column that was never hashed makes the lookup throw after
     * the position has been taken.
     */
    method MoveTo(nhx: int, nhz: int, tm: TileManager) returns (r: Result<()>)
      requires tm.Valid()
      modifies this
      ensures hx == nhx && hz == nhz
      ensures KeyOf(nhx, nhz) !in tm.hashes ==> r.Throws? && y == old(y)
      ensures KeyOf(nhx, nhz) in tm.hashes ==> r.Ok? && y == Plus1(Top(tm.hashes[KeyOf(nhx, nhz)]))
    {
      hx, hz := nhx, nhz;
      var k := KeyOf(hx, hz);
      if k !in tm.hashes {
        return Throws("TypeError: Cannot read properties of undefined (reading 'filter')");
      }
      y := Plus1(Top(tm.hashes[k]));
      r := Ok(());
    }
  }

  /** `h + 1` */
  function Plus1(h: Height): Height {
    match h
    case Tenths(v) => Tenths(v + 10)
    case NaN => NaN
  }

  /**
   * On a valid manager with numeric heights, a vehicle moved onto a hashed column sits
   * exactly one unit above some tile of that column, and above every one of them.
   */
  lemma VehicleSitsOnTop(tm: TileManager, hx: int, hz: int)
    requires tm.Valid() && KeyOf(hx, hz) in tm.hashes
    requires forall i :: 0 <= i < |tm.tiles| ==> tm.tiles[i].y.Tenths?
    ensures var col := tm.hashes[KeyOf(hx, hz)]; var y := Plus1(Top(col));
      y.Tenths? && (exists i :: 0 <= i < |col| && col[i].y.v + 10 == y.v) &&
      forall i :: 0 <= i < |col| ==> col[i].y.v + 10 <= y.v
  {
    var col := tm.hashes[KeyOf(hx, hz)];
    forall i | 0 <= i < |col|
      ensures col[i].y.Tenths?
    {
      var j :| 0 <= j < |tm.tiles| && tm.tiles[j] == col[i];
    }
    TopIsHighest(col);
  }
}
