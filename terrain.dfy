/** Small failure-compatible wrappers used throughout the model. */
module Wrappers {
  datatype Option<+T> = None | Some(value: T)

  /** A computation that either yields a value or throws the given message. */
  datatype Result<+T> = Ok(value: T) | Throws(message: string)
}

/**
 * Shared vocabulary of the terrain: tile types, heights, lattice coordinates and
 * the JavaScript numbers that appear as region bounds.
 *
 * Horizontal coordinates are stored doubled (`hx = 2x`, `hz = 2z`), so the 0.5 steps
 * of the world are integer steps here. Heights are stored in tenths, so that the
 * two water surfaces (`WATER_LEVEL + 0.3` and `WATER_LEVEL + 0.5`) are exact.
 */
module Terrain {

  /** Math.round(p / q) for a positive divisor: floor(p / q + 1/2). */
  function RoundDiv(p: int, q: int): (r: int)
    requires q > 0
    ensures 2 * q * r <= 2 * p + q < 2 * q * r + 2 * q
  {
    (2 * p + q) / (2 * q)
  }

  const WORLD_HEIGHT: int := 64
  /** `Math.round(WORLD_HEIGHT / 2) - 1` */
  const WATER_LEVEL: int := RoundDiv(WORLD_HEIGHT, 2) - 1

  /** Heights of the classification passes, in tenths. */
  const WATER_LEVEL_10: int := 10 * WATER_LEVEL
  const DEEP_SURFACE_10: int := WATER_LEVEL_10 + 3
  const SHALLOW_SURFACE_10: int := WATER_LEVEL_10 + 5
  const SHORE_10: int := WATER_LEVEL_10 + 10
  const UPLAND_10: int := WATER_LEVEL_10 + 20

  datatype TileType = Grass | Dirt | Water | DeepWater | Sand

  /** `type.includes("WATER")`: true for WATER and DEEP_WATER. */
  predicate IsWaterType(t: TileType) {
    t == Water || t == DeepWater
  }

  /** A tile height: a number of tenths, or NaN (the mean of no heights). */
  datatype Height = Tenths(v: int) | NaN

  /** `h <= c / 10` in JavaScript: false for NaN. */
  predicate AtMost(h: Height, c: int) {
    h.Tenths? && h.v <= c
  }

  /** `h == c / 10` in JavaScript: false for NaN. */
  predicate IsAt(h: Height, c: int) {
    h.Tenths? && h.v == c
  }

  /** `h - d / 10`: NaN stays NaN. */
  function Minus(h: Height, d: int): Height {
    match h
    case Tenths(v) => Tenths(v - d)
    case NaN => NaN
  }

  /** Height of `n` whole units. */
  function Units(n: int): Height {
    Tenths(10 * n)
  }

  /** A height that is a whole number of units (or NaN). */
  predicate Integral(h: Height) {
    h.Tenths? ==> h.v % 10 == 0
  }

  /** A terrain tile of the generator: position (doubled), height, type. */
  datatype Tile = Tile(hx: int, y: Height, hz: int, kind: TileType)

  /**
   * An even number, by stepping towards zero. Stated without `%` so that the many
   * lattice tests of a scan stay cheap for the solver; EvenMod links it to `% 2`.
   */
  predicate Even(n: int)
    decreases if n < 0 then -n else n
  {
    if n == 0 then true
    else if n == 1 || n == -1 then false
    else if n > 0 then Even(n - 2)
    else Even(n + 2)
  }

  lemma {:induction false} EvenMod(n: int)
    ensures Even(n) <==> n % 2 == 0
    decreases if n < 0 then -n else n
  {
    if n > 1 {
      EvenMod(n - 2);
    } else if n < -1 {
      EvenMod(n + 2);
    }
  }

  /** Parity alternates. */
  lemma EvenNext(n: int)
    ensures Even(n + 1) <==> !Even(n)
    ensures Even(n + 2) <==> Even(n)
  {
    EvenMod(n);
    EvenMod(n + 1);
    EvenMod(n + 2);
  }

  /** A lattice point: `(x + z) % 1 == 0`, i.e. `x + z` is a whole number. */
  predicate OnLattice(hx: int, hz: int) {
    Even(hx + hz)
  }

  /**
   * The column a tile belongs to: `(Math.round(10x), Math.round(10z))`. The string
   * spellings of this pair are in module Hashing.
   */
  datatype ColumnKey = ColumnKey(x10: int, z10: int)

  function KeyOf(hx: int, hz: int): ColumnKey {
    ColumnKey(5 * hx, 5 * hz)
  }

  function TileKey(t: Tile): ColumnKey {
    KeyOf(t.hx, t.hz)
  }

  lemma KeyOfInjective(a: int, b: int, c: int, d: int)
    requires KeyOf(a, b) == KeyOf(c, d)
    ensures a == c && b == d
  {
  }

  /**
   * A JavaScript number as it appears in a region bound: a multiple of 0.5
   * (stored doubled), an infinity, or NaN.
   */
  datatype Num = Fin(half: int) | PosInf | NegInf | NaNum

  /** `isNaN(b - a)` */
  predicate DiffIsNaN(b: Num, a: Num) {
    a.NaNum? || b.NaNum? || (a.PosInf? && b.PosInf?) || (a.NegInf? && b.NegInf?)
  }

  /** `a + d / 2` */
  function Plus(a: Num, d: int): Num {
    if a.Fin? then Fin(a.half + d) else a
  }

  /** `a == b` in JavaScript: NaN equals nothing. */
  predicate NumEq(a: Num, b: Num) {
    !a.NaNum? && a == b
  }

  /** `a <= b` in JavaScript. */
  predicate NumLe(a: Num, b: Num) {
    !a.NaNum? && !b.NaNum? &&
    (a.NegInf? || b.PosInf? || (a.Fin? && b.Fin? && a.half <= b.half))
  }
}
