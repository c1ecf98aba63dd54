/**
 * The page's cursor and frame counter (resources/index.mjs): the cursor remembers its
 * last screen position and the tile it last selected; the debugging overlay counts the
 * frames drawn in the last second.
 */
module Cursors {
  import opened Wrappers
  import D = Drawables
  import TM = TileManagers

  /**
   * One coordinate of the value given to the `lastKnownPosition` setter: a number, or
   * None when it is missing or NaN.
   */
  type Coordinate = Option<real>

  /** `v || prev`: a missing, NaN or zero coordinate keeps the previous one. */
  function OrElse(v: Coordinate, prev: real): (r: real)
    ensures r == prev || (v.Some? && r == v.value && v.value != 0.0)
    ensures v.Some? && v.value != 0.0 ==> r == v.value
  {
    if v.Some? && v.value != 0.0 then v.value else prev
  }

  /** The static state of `Cursor`. */
  class Cursor {
    var x: real
    var y: real
    var selected: Option<D.Tile>

    constructor ()
      ensures x == 0.0 && y == 0.0 && selected.None?
    {
      x, y := 0.0, 0.0;
      selected := None;
    }

    /** `Cursor.getPosition()` */
    function GetPosition(): (p: (real, real))
      reads this
      ensures p.0 == x && p.1 == y
    {
      (x, y)
    }

    /** `Cursor.getSelectedTile()` */
    function GetSelectedTile(): (t: Option<D.Tile>)
      reads this
      ensures t == selected
    {
      selected
    }

    /**
     * The `lastKnownPosition` setter, for a value that may be undefined: each
     * coordinate is replaced only by a number that is neither 0 nor NaN.
     */
    method SetLastKnownPosition(value: Option<(Coordinate, Coordinate)>)
      modifies this
      ensures value.None? ==> GetPosition() == old(GetPosition())
      ensures value.Some? ==> GetPosition() == (OrElse(value.value.0, old(x)), OrElse(value.value.1, old(y)))
      ensures selected == old(selected)
    {
      var vx: Coordinate := if value.Some? then value.value.0 else None;
      var vy: Coordinate := if value.Some? then value.value.1 else None;
      x := OrElse(vx, x);
      y := OrElse(vy, y);
    }

    /**
     * `Cursor.deselectTile()`: clear the hover flag of the selected tile. The cursor
     * keeps the reference, so `getSelectedTile` still returns it.
     */
    method DeselectTile()
      modifies if selected.Some? then {selected.value} else {}
      ensures selected == old(selected)
      ensures selected.Some? ==> !selected.value.selected
    {
      if selected.Some? {
        selected.value.selected := false;
      }
    }

    /**
     * `Cursor.updateSelectedTile()`: ask the tile manager for the tile under the last
     * known position (falling back to the current selection) and mark it selected.
     * Afterwards the selected tile is the only loaded tile with its hover flag set.
     */
    method UpdateSelectedTile(tm: TM.TileManager, contains: D.Tile -> bool)
      modifies this, tm.tiles
      modifies if selected.Some? then {selected.value} else {}
      ensures var c := TM.Candidates(tm.tiles, contains);
        selected == if c == [] then old(selected) else Some(TM.Frontmost(c)[0])
      ensures selected.Some? ==> selected.value.selected
      ensures forall i :: 0 <= i < |tm.tiles| ==> (tm.tiles[i].selected <==> selected == Some(tm.tiles[i]))
      ensures GetPosition() == old(GetPosition())
    {
      var r := tm.GetHighlightedTile(contains, selected);
      selected := r;
      if r.Some? {
        r.value.selected := true;
      }
    }
  }

  /* ---------- The frame counter ---------- */

  /** `frames.filter(f => f > time - 1000)`, in order. */
  function Recent(frames: seq<real>, time: real): (r: seq<real>)
    ensures |r| <= |frames|
    ensures forall i :: 0 <= i < |r| ==> r[i] in frames && r[i] > time - 1000.0
    ensures forall i :: 0 <= i < |frames| && frames[i] > time - 1000.0 ==> frames[i] in r
  {
    if frames == [] then []
    else
      var last := frames[|frames| - 1];
      assert frames == frames[..|frames| - 1] + [last];
      Recent(frames[..|frames| - 1], time) + (if last > time - 1000.0 then [last] else [])
  }

  /** The static state of `Debugging`: the timestamps of the frames drawn. */
  class Debugging {
    var frames: seq<real>

    constructor ()
      ensures frames == []
    {
      frames := [];
    }

    /**
     * `Debugging.render(ctx)` at time `time` (`performance.now()`, an input): forget
     * frames older than a second, record this one, and show their count as the FPS.
     */
    method Render(time: real) returns (fps: nat)
      modifies this
      ensures frames == Recent(old(frames), time) + [time] && fps == |frames|
    {
      frames := Recent(frames, time) + [time];
      fps := |frames|;
    }
  }

  predicate Ordered(frames: seq<real>) {
    forall i, j :: 0 <= i < j < |frames| ==> frames[i] <= frames[j]
  }

  /** The timestamps are in order and none is after `time`. */
  predicate Clock(frames: seq<real>, time: real) {
    Ordered(frames) && forall i :: 0 <= i < |frames| ==> frames[i] <= time
  }

  /** Filtering keeps the timestamps in order. */
  lemma {:induction false} RecentOrdered(frames: seq<real>, time: real)
    requires Ordered(frames)
    ensures Ordered(Recent(frames, time))
  {
    if frames != [] {
      var front, last := frames[..|frames| - 1], frames[|frames| - 1];
      RecentOrdered(front, time);
      var rf := Recent(front, time);
      forall i | 0 <= i < |rf|
        ensures rf[i] <= last
      {
        var j :| 0 <= j < |front| && front[j] == rf[i];
      }
    }
  }

  /**
   * With `performance.now()` never going back, a render keeps the frames in time
   * order, every one of them within the last second, ending with this frame; so the
   * FPS shown counts this frame and every earlier one less than a second old.
   */
  lemma RenderWindow(frames: seq<real>, time: real)
    requires Clock(frames, time)
    ensures var r := Recent(frames, time) + [time];
      Clock(r, time) && r[|r| - 1] == time && forall i :: 0 <= i < |r| ==> time - 1000.0 < r[i] <= time
  {
    var rf := Recent(frames, time);
    RecentOrdered(frames, time);
    forall i | 0 <= i < |rf|
      ensures rf[i] <= time
    {
      var j :| 0 <= j < |frames| && frames[j] == rf[i];
    }
  }
}
