/**
 * The page's drawable tiles (resources/Drawable.mjs): the `Tile` objects the world
 * builds and the tile manager keeps, their column hash and key, and the constructor's
 * default type. Screen geometry and images are not part of this model.
 */
module Drawables {
  import opened Wrappers
  import opened Terrain
  import opened Hashing

  /**
   * The `Tile` constructor's typing rule: an explicit type is kept; without one, a tile
   * at or below WATER_LEVEL is WATER and any other (a NaN height included) is GRASS.
   */
  function DefaultType(y: Height, given: Option<TileType>): (k: TileType)
    ensures given.Some? ==> k == given.value
    ensures given.None? ==> (k == Water <==> AtMost(y, WATER_LEVEL_10)) && (k == Water || k == Grass)
  {
    match given
    case Some(t) => t
    case None => if AtMost(y, WATER_LEVEL_10) then Water else Grass
  }

  /**
   * A drawn tile. Its position, height and type never change after construction; the
   * hover flag `selected` does.
   */
  class Tile {
    const hx: int
    const y: Height
    const hz: int
    const kind: TileType
    var selected: bool

    /** `new Tile(x, y, z, type)`, with `type` possibly undefined. */
    constructor (hx: int, y: Height, hz: int, given: Option<TileType>)
      ensures this.hx == hx && this.y == y && this.hz == hz
      ensures kind == DefaultType(y, given) && !selected
    {
      this.hx := hx;
      this.y := y;
      this.hz := hz;
      this.kind := DefaultType(y, given);
      this.selected := false;
    }

    /** `tile.hash`, as the pair the string spells (module Hashing). */
    function Column(): ColumnKey {
      KeyOf(hx, hz)
    }

    /** `tile.key`: "x" + round(10x) + "y" + round(10y) + "z" + round(10z). */
    function Key(): string {
      TileKeyString(hx, y, hz)
    }
  }

  /**
   * Tiles stacked in one column share the column hash but have different keys; two
   * tiles have the same key exactly when they have the same position and height.
   */
  lemma StackedTilesHaveDistinctKeys(a: Tile, b: Tile)
    ensures a.Column() == b.Column() <==> ColumnHash(a.hx, a.hz) == ColumnHash(b.hx, b.hz)
    ensures a.Key() == b.Key() <==> (a.hx == b.hx && a.y == b.y && a.hz == b.hz)
    ensures a.Column() == b.Column() && a.y != b.y ==> a.Key() != b.Key()
  {
    ColumnHashIdentifiesColumn(a.hx, a.hz, b.hx, b.hz);
    TileKeyIdentifiesTile(a.hx, a.y, a.hz, b.hx, b.y, b.hz);
  }

  /** The height of a tile, the key of the page's `(a, b) => a.y - b.y`. */
  function YOf(t: Tile): Height {
    t.y
  }

  /** The depth of a tile, the key of `(a, b) => a.z - b.z` (doubled, same order). */
  function ZOf(t: Tile): Height {
    Tenths(t.hz)
  }
}
