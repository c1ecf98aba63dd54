/**
 * Height smoothing of the worker (`interpolate` and the ten rounds that apply it in
 * resources/workers/World_Generator.mjs): every tile's new height is the rounded mean
 * of its radius-1 neighbours' heights, all computed from the previous heights before
 * any is assigned.
 */
module Smoothing {
  import opened Terrain
  import opened Neighbours
  import opened ColumnIndex

  /** `a + b` on heights: NaN once either is NaN. */
  function AddHeights(a: Height, b: Height): Height {
    if a.Tenths? && b.Tenths? then Tenths(a.v + b.v) else NaN
  }

  /** `ns.reduce((t, a) => t + a.y, 0)` over the first `n` tiles. */
  function SumOf(ns: seq<Tile>, n: nat): Height
    requires n <= |ns|
  {
    if n == 0 then Tenths(0) else AddHeights(SumOf(ns, n - 1), ns[n - 1].y)
  }

  /** `Math.round(total / ns.length)`: 0 / 0 and anything with NaN give NaN. */
  function Mean(ns: seq<Tile>): (h: Height)
    ensures h.Tenths? ==> |ns| > 0 && Integral(h)
  {
    if |ns| == 0 then NaN
    else match SumOf(ns, |ns|)
      case NaN => NaN
      case Tenths(s) => Units(RoundDiv(s, 10 * |ns|))
  }

  /** The height `interpolate` computes for one tile. */
  function NeighbourMean(tiles: seq<Tile>, cols: Columns, t: Tile): Height
    requires IndicesBelow(cols, |tiles|)
  {
    Mean(NeighbourTiles(tiles, cols, t.hx, t.hz, 2))
  }

  /** What `interpolate(tiles, tileHash)` returns: one height per tile, in order. */
  function SmoothedHeights(tiles: seq<Tile>, cols: Columns): (hs: seq<Height>)
    requires IndicesBelow(cols, |tiles|)
    ensures |hs| == |tiles|
  {
    seq(|tiles|, i requires 0 <= i < |tiles| => NeighbourMean(tiles, cols, tiles[i]))
  }

  /** The tiles with their heights replaced, index by index. */
  function WithHeights(tiles: seq<Tile>, hs: seq<Height>): (r: seq<Tile>)
    requires |hs| == |tiles|
    ensures SamePlaces(tiles, r)
  {
    seq(|tiles|, i requires 0 <= i < |tiles| => tiles[i].(y := hs[i]))
  }

  /** One round: all new heights from the old snapshot, then all assigned. */
  function SmoothStep(tiles: seq<Tile>, cols: Columns): seq<Tile>
    requires IndicesBelow(cols, |tiles|)
  {
    WithHeights(tiles, SmoothedHeights(tiles, cols))
  }

  /** `n` rounds of smoothing. */
  function SmoothRounds(tiles: seq<Tile>, cols: Columns, n: nat): (r: seq<Tile>)
    requires IndicesBelow(cols, |tiles|)
    ensures |r| == |tiles|
  {
    if n == 0 then tiles
    else
      var prev := SmoothRounds(tiles, cols, n - 1);
      SmoothStep(prev, cols)
  }

  /** `interpolate(tiles, tileHash)`. */
  method Interpolate(tiles: seq<Tile>, cols: Columns) returns (hs: seq<Height>)
    requires IndicesBelow(cols, |tiles|)
    ensures hs == SmoothedHeights(tiles, cols)
  {
    hs := [];
    ghost var want := SmoothedHeights(tiles, cols);
    var i := 0;
    while i < |tiles|
      invariant 0 <= i <= |tiles| && hs == want[..i]
    {
      var t := tiles[i];
      var ns := GetNeighbours(tiles, cols, t.hx, t.hz, 2);
      assert want[..i + 1] == want[..i] + [Mean(ns)];
      hs := hs + [Mean(ns)];
      i := i + 1;
    }
    assert want[..i] == want;
  }

  /** One round of the depth loop: compute all heights, then assign them in order. */
  method SmoothOnce(tiles: seq<Tile>, cols: Columns) returns (tiles': seq<Tile>)
    requires IndicesBelow(cols, |tiles|)
    ensures tiles' == SmoothStep(tiles, cols)
  {
    var hs := Interpolate(tiles, cols);
    tiles' := tiles;
    var i := 0;
    while i < |tiles'|
      invariant 0 <= i <= |tiles'| == |tiles|
      invariant forall j :: 0 <= j < i ==> tiles'[j] == tiles[j].(y := hs[j])
      invariant forall j :: i <= j < |tiles| ==> tiles'[j] == tiles[j]
    {
      tiles' := tiles'[i := tiles'[i].(y := hs[i])];
      i := i + 1;
    }
  }

  const SMOOTHING_DEPTH: nat := 10

  /** The `maxDepth = 10` loop of `generate`. */
  method Smooth(tiles: seq<Tile>, cols: Columns) returns (tiles': seq<Tile>)
    requires IndicesBelow(cols, |tiles|)
    ensures tiles' == SmoothRounds(tiles, cols, SMOOTHING_DEPTH)
  {
    tiles' := tiles;
    var depth := 0;
    while depth < SMOOTHING_DEPTH
      invariant 0 <= depth <= SMOOTHING_DEPTH
      invariant tiles' == SmoothRounds(tiles, cols, depth)
    {
      tiles' := SmoothOnce(tiles', cols);
      depth := depth + 1;
    }
  }

  /** Every height of `ns` is a number of tenths in [10a, 10b]. */
  predicate HeightsWithin(ns: seq<Tile>, a: int, b: int) {
    forall k :: 0 <= k < |ns| ==> ns[k].y.Tenths? && 10 * a <= ns[k].y.v <= 10 * b
  }

  lemma {:induction false} SumWithin(ns: seq<Tile>, n: nat, a: int, b: int)
    requires n <= |ns| && HeightsWithin(ns, a, b)
    ensures SumOf(ns, n).Tenths? && 10 * a * n <= SumOf(ns, n).v <= 10 * b * n
  {
    if n > 0 {
      SumWithin(ns, n - 1, a, b);
      assert 10 * a * n == 10 * a * (n - 1) + 10 * a;
      assert 10 * b * n == 10 * b * (n - 1) + 10 * b;
    }
  }

  /** Floor division between two multiples of the divisor. */
  lemma DivBetween(p: int, q: int, a: int, b: int)
    requires q > 0 && a * q <= p < (b + 1) * q
    ensures a <= p / q <= b
  {
    var d, m := p / q, p % q;
    assert p == d * q + m && 0 <= m < q;
    assert (d + 1) * q == d * q + q;
    LessByFactor(a, d + 1, q);
    LessByFactor(d, b + 1, q);
  }

  lemma LessByFactor(x: int, y: int, q: int)
    requires q > 0 && x * q < y * q
    ensures x < y
  {
    assert (y - x) * q == y * q - x * q;
  }

  /**
   * The rounded mean of heights whole-numbered in [a, b] is a whole height in [a, b]:
   * smoothing never leaves the range of the heights it averages.
   */
  lemma MeanWithin(ns: seq<Tile>, a: int, b: int)
    requires |ns| > 0 && HeightsWithin(ns, a, b)
    ensures Mean(ns).Tenths? && 10 * a <= Mean(ns).v <= 10 * b && Integral(Mean(ns))
  {
    var n := |ns|;
    SumWithin(ns, n, a, b);
    var s := SumOf(ns, n).v;
    ScaledBounds(s, n, a, b);
    DivBetween(2 * s + 10 * n, 20 * n, a, b);
    assert RoundDiv(s, 10 * n) == (2 * s + 10 * n) / (20 * n);
  }

  lemma ScaledBounds(s: int, n: nat, a: int, b: int)
    requires n > 0 && 10 * a * n <= s <= 10 * b * n
    ensures a * (20 * n) <= 2 * s + 10 * n < (b + 1) * (20 * n)
  {
    assert a * (20 * n) == 2 * (10 * a * n);
    assert (b + 1) * (20 * n) == 2 * (10 * b * n) + 20 * n;
  }

  /** Equal heights all round give that height back. */
  lemma MeanOfEqual(ns: seq<Tile>, a: int)
    requires |ns| > 0 && forall k :: 0 <= k < |ns| ==> ns[k].y == Units(a)
    ensures Mean(ns) == Units(a)
  {
    MeanWithin(ns, a, a);
  }

  /** No neighbours: 0 / 0, NaN. */
  lemma MeanOfNone(ns: seq<Tile>)
    requires |ns| == 0
    ensures Mean(ns) == NaN
  {
  }

  /** A round of smoothing keeps every tile's position and type. */
  lemma SmoothKeepsPlacesAndTypes(tiles: seq<Tile>, cols: Columns)
    requires IndicesBelow(cols, |tiles|)
    ensures SamePlaces(tiles, SmoothStep(tiles, cols))
    ensures forall i :: 0 <= i < |tiles| ==> SmoothStep(tiles, cols)[i].kind == tiles[i].kind
  {
  }

  /**
   * Uniform whole heights are a fixed point of a round, as long as every tile has at
   * least one neighbour.
   */
  lemma UniformIsFixed(tiles: seq<Tile>, cols: Columns, a: int)
    requires IndicesBelow(cols, |tiles|)
    requires forall i :: 0 <= i < |tiles| ==> tiles[i].y == Units(a)
    requires forall i :: 0 <= i < |tiles| ==> |NeighbourTiles(tiles, cols, tiles[i].hx, tiles[i].hz, 2)| > 0
    ensures SmoothStep(tiles, cols) == tiles
  {
    forall i | 0 <= i < |tiles|
      ensures SmoothStep(tiles, cols)[i] == tiles[i]
    {
      var ns := NeighbourTiles(tiles, cols, tiles[i].hx, tiles[i].hz, 2);
      NeighboursAreTiles((t: Tile) => t.y == Units(a), tiles, cols, tiles[i].hx, tiles[i].hz, 2);
      MeanOfEqual(ns, a);
    }
  }

  /** Every height is NaN or a whole number of units in [a, b]. */
  predicate InRangeOrNaN(tiles: seq<Tile>, a: int, b: int) {
    forall i :: 0 <= i < |tiles| ==> tiles[i].y.NaN? || (10 * a <= tiles[i].y.v <= 10 * b && Integral(tiles[i].y))
  }

  /**
   * A round keeps whole heights in [a, b] (the first round starts from the grid's
   * 0..WORLD_HEIGHT), with NaN for a tile without neighbours or next to a NaN.
   */
  lemma SmoothKeepsRange(tiles: seq<Tile>, cols: Columns, a: int, b: int)
    requires IndicesBelow(cols, |tiles|) && InRangeOrNaN(tiles, a, b)
    ensures InRangeOrNaN(SmoothStep(tiles, cols), a, b)
  {
    var r := SmoothStep(tiles, cols);
    forall i | 0 <= i < |tiles|
      ensures r[i].y.NaN? || (10 * a <= r[i].y.v <= 10 * b && Integral(r[i].y))
    {
      var ns := NeighbourTiles(tiles, cols, tiles[i].hx, tiles[i].hz, 2);
      if r[i].y.Tenths? {
        assert Mean(ns).Tenths?;
        NeighboursAreTiles((t: Tile) => t.y.NaN? || 10 * a <= t.y.v <= 10 * b, tiles, cols, tiles[i].hx, tiles[i].hz, 2);
        SumNumbers(ns, |ns|);
        MeanWithin(ns, a, b);
      }
    }
  }

  /** A number total means every summed tile's height was a number. */
  lemma {:induction false} SumNumbers(ns: seq<Tile>, n: nat)
    requires n <= |ns| && SumOf(ns, n).Tenths?
    ensures forall k :: 0 <= k < n ==> ns[k].y.Tenths?
  {
    if n > 0 {
      SumNumbers(ns, n - 1);
    }
  }

  lemma SmoothRoundsKeepRange(tiles: seq<Tile>, cols: Columns, n: nat, a: int, b: int)
    requires IndicesBelow(cols, |tiles|) && InRangeOrNaN(tiles, a, b)
    ensures InRangeOrNaN(SmoothRounds(tiles, cols, n), a, b)
    ensures SamePlaces(tiles, SmoothRounds(tiles, cols, n))
    ensures forall i :: 0 <= i < |tiles| ==> SmoothRounds(tiles, cols, n)[i].kind == tiles[i].kind
  {
    if n > 0 {
      SmoothRoundsKeepRange(tiles, cols, n - 1, a, b);
      SmoothKeepsRange(SmoothRounds(tiles, cols, n - 1), cols, a, b);
    }
  }

  lemma {:induction false} SmoothRoundsKeepPlaces(tiles: seq<Tile>, cols: Columns, n: nat)
    requires IndicesBelow(cols, |tiles|)
    ensures SamePlaces(tiles, SmoothRounds(tiles, cols, n))
    ensures forall i :: 0 <= i < |tiles| ==> SmoothRounds(tiles, cols, n)[i].kind == tiles[i].kind
  {
    if n > 0 {
      SmoothRoundsKeepPlaces(tiles, cols, n - 1);
      SmoothKeepsPlacesAndTypes(SmoothRounds(tiles, cols, n - 1), cols);
    }
  }
}
