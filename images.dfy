/**
 * The page's image cache (resources/Images.mjs): a two-level map from an image's
 * `src` to its copies by size, keyed `"width:height"`. The `"0:0"` slot holds the base
 * image, the first one added; `getImage` serves a cached copy, draws an internal image,
 * or scales the base image to the size asked for.
 *
 * Pixels are not modelled: an image is its origin and its size. Drawing the internal
 * images and scaling are the constructors `Drawn` and `Scaled`.
 */
module Images {
  import opened Wrappers

  /** An image or canvas: where it comes from and its size. */
  datatype Image =
    | Loaded(src: string, width: int, height: int)
    | Drawn(name: string, width: int, height: int)
    | Scaled(base: Image, width: int, height: int)

  /**
   * The `"width:height"` key, kept as the pair of whole numbers it is written from
   * (writing a whole number out in decimal loses nothing, so keys compare alike).
   */
  type Size = (int, int)

  const BASE: Size := (0, 0)

  /** `Math.round`: the nearest whole number, halves rounded up. */
  function Round(x: real): (n: int)
    ensures n as real - 0.5 <= x < n as real + 0.5
  {
    (x + 0.5).Floor
  }

  lemma RoundWhole(n: int)
    ensures Round(n as real) == n
  {
  }

  /* ---------- The texture lists ---------- */

  const RED_HOVER := "internal:red_hover"
  const WHITE_HOVER := "internal:white_hover"

  const INTERNAL: seq<string> := [RED_HOVER, WHITE_HOVER]
  const TILES: seq<string> :=
    ["images/grass.png", "images/dirt_no_border.png", "images/water_no_border.png", "images/deep_water.png", "images/sand.png"]
  const BUILDINGS: seq<string> := ["images/house.png", "images/wall.png", "images/straight_dirt_path.png"]
  const UI: seq<string> := ["images/remove.png"]
  const BOATS: seq<string> := ["images/boat_1.png"]

  const PREFIX := "internal:"

  predicate IsInternal(src: string) {
    |PREFIX| <= |src| && src[..|PREFIX|] == PREFIX
  }

  /** `Images.textures`: the values of Tiles, Buildings, Boats, Internal and UI, in that order. */
  function Textures(): (t: seq<string>)
    ensures |t| == 12
    ensures t[..5] == TILES && t[5..8] == BUILDINGS && t[8..9] == BOATS && t[9..11] == INTERNAL && t[11..] == UI
  {
    TILES + BUILDINGS + BOATS + INTERNAL + UI
  }

  /**
   * The textures are distinct, and exactly the internal ones (the hover outlines) carry
   * the `internal:` prefix; the others are files under `images/`.
   */
  lemma TexturesSorted()
    ensures forall i, j :: 0 <= i < j < |Textures()| ==> Textures()[i] != Textures()[j]
    ensures forall i :: 0 <= i < |Textures()| ==> (IsInternal(Textures()[i]) <==> 9 <= i < 11)
    ensures forall i :: 0 <= i < |Textures()| && !IsInternal(Textures()[i]) ==> Textures()[i][..7] == "images/"
  {
    var t := Textures();
    assert t == TILES + BUILDINGS + BOATS + INTERNAL + UI;
    forall i | 0 <= i < |t|
      ensures (IsInternal(t[i]) <==> 9 <= i < 11)
      ensures !IsInternal(t[i]) ==> t[i][..7] == "images/"
    {
      if 9 <= i < 11 {
        assert t[i] == INTERNAL[i - 9];
        assert t[i][..|PREFIX|] == PREFIX;
      } else {
        assert t[i][..7] == "images/";
        assert t[i][1] == 'm' != PREFIX[1];
        assert |PREFIX| <= |t[i]| ==> t[i][..|PREFIX|][1] == t[i][1];
      }
    }
  }

  /* ---------- Drawing internal images ---------- */

  /**
   * `self[src]()`: only the two hover outlines are defined, each a 64x48 canvas; any
   * other name is undefined and calling it throws.
   */
  function DrawInternal(src: string): (r: Result<Image>)
    ensures r.Ok? <==> src in INTERNAL
    ensures r.Ok? ==> r.value == Drawn(src, 64, 48)
  {
    if src == RED_HOVER || src == WHITE_HOVER then Ok(Drawn(src, 64, 48))
    else Throws("TypeError: self[src] is not a function")
  }

  /** `Images.getInternalImage(src)`: a name without the `internal:` prefix is refused. */
  function GetInternalImage(src: string): (r: Result<Image>)
    ensures !IsInternal(src) ==> r == Throws("Trying to fetch non-internal image")
    ensures r.Ok? <==> src in INTERNAL
    ensures r.Ok? ==> r.value.width == 64 && r.value.height == 48
  {
    if !IsInternal(src) then Throws("Trying to fetch non-internal image")
    else DrawInternal(src)
  }

  /** Every internal texture can be drawn. */
  lemma InternalTexturesDraw(i: nat)
    requires i < |Textures()| && IsInternal(Textures()[i])
    ensures GetInternalImage(Textures()[i]).Ok?
  {
    TexturesSorted();
  }

  /** `scalePixelated(image, width, height)`: a canvas of the rounded size. */
  function ScalePixelated(image: Image, width: real, height: real): (s: Image)
    ensures s.width == Round(width) && s.height == Round(height)
  {
    Scaled(image, Round(width), Round(height))
  }

  /* ---------- The cache ---------- */

  type Copies = map<Size, Image>

  /** The copies cached for `src`, none when `src` was never added. */
  function CopiesOf(cache: map<string, Copies>, src: string): Copies {
    if src in cache then cache[src] else map[]
  }

  /** `addImage(image, src)` on the map: keep or set the base slot, then store by size. */
  function Added(cache: map<string, Copies>, image: Image, src: string): (c: map<string, Copies>)
    ensures src in c && (image.width, image.height) in c[src] && c[src][(image.width, image.height)] == image
    ensures BASE in c[src]
    ensures (image.width, image.height) != BASE && BASE in CopiesOf(cache, src) ==>
      c[src][BASE] == CopiesOf(cache, src)[BASE]
    ensures BASE !in CopiesOf(cache, src) ==> c[src][BASE] == image
    ensures forall s :: s in cache && s != src ==> s in c && c[s] == cache[s]
    ensures forall s :: s in c ==> s in cache || s == src
    ensures forall k :: k in CopiesOf(cache, src) && k != (image.width, image.height) && k != BASE ==>
      k in c[src] && c[src][k] == CopiesOf(cache, src)[k]
    ensures forall k :: k in c[src] ==> k in CopiesOf(cache, src) || k == (image.width, image.height) || k == BASE
  {
    var copies := CopiesOf(cache, src);
    var base := if BASE in copies then copies[BASE] else image;
    cache[src := copies[BASE := base][(image.width, image.height) := image]]
  }

  /** Adding never drops a source or a size already cached. */
  lemma AddedKeepsKeys(cache: map<string, Copies>, image: Image, src: string, s: string, k: Size)
    requires s in cache && k in cache[s]
    ensures s in Added(cache, image, src) && k in Added(cache, image, src)[s]
  {
  }

  /** Adding the same image again changes nothing. */
  lemma AddedIdempotent(cache: map<string, Copies>, image: Image, src: string)
    ensures Added(Added(cache, image, src), image, src) == Added(cache, image, src)
  {
    var once := Added(cache, image, src);
    var twice := Added(once, image, src);
    assert twice[src] == once[src];
    assert forall s :: s in twice <==> s in once;
  }

  /** The static state of `Images`: `#imageCache`. */
  class ImageCache {
    var cache: map<string, Copies>

    constructor ()
      ensures cache == map[]
    {
      cache := map[];
    }

    /**
     * `Images.getImageFromCache(src, width, height)`: the copy of `src` at the rounded
     * size, if cached.
     */
    function GetImageFromCache(src: string, width: real, height: real): (r: Option<Image>)
      reads this
      ensures r.Some? <==> src in cache && (Round(width), Round(height)) in cache[src]
      ensures r.Some? ==> r.value == cache[src][(Round(width), Round(height))]
    {
      var key := (Round(width), Round(height));
      if src in cache && key in cache[src] then Some(cache[src][key]) else None
    }

    /** `Images.cacheContains(src, width, height)`: that lookup is defined. */
    predicate CacheContains(src: string, width: real, height: real)
      reads this
    {
      GetImageFromCache(src, width, height).Some?
    }

    /** `Images.addImage(image, src)` */
    method AddImage(image: Image, src: string)
      modifies this
      ensures cache == Added(old(cache), image, src)
    {
      var copies := CopiesOf(cache, src);
      ghost var base := if BASE in copies then copies[BASE] else image;
      if BASE !in copies {
        copies := copies[BASE := image];
      }
      assert copies == CopiesOf(old(cache), src)[BASE := base];
      copies := copies[(image.width, image.height) := image];
      cache := cache[src := copies];
    }

    /**
     * `Images.getImage(src, width, height)`: a cached copy of the rounded size is served
     * as it is; otherwise an `internal:` image is drawn and added, or the base image is
     * scaled and the copy added; with neither, it throws.
     */
    method GetImage(src: string, width: real, height: real) returns (r: Result<Image>)
      modifies this
      ensures old(CacheContains(src, width, height)) ==>
        r == Ok(old(cache)[src][(Round(width), Round(height))]) && cache == old(cache)
      ensures !old(CacheContains(src, width, height)) && IsInternal(src) ==>
        r == GetInternalImage(src) &&
        cache == (if r.Ok? then Added(old(cache), r.value, src) else old(cache))
      ensures !old(CacheContains(src, width, height)) && !IsInternal(src) && old(CacheContains(src, 0.0, 0.0)) ==>
        r == Ok(ScalePixelated(old(cache)[src][BASE], Round(width) as real, Round(height) as real)) &&
        cache == Added(old(cache), r.value, src)
      ensures !old(CacheContains(src, width, height)) && !IsInternal(src) && !old(CacheContains(src, 0.0, 0.0)) ==>
        r == Throws("Image not generated") && cache == old(cache)
    {
      var w, h := Round(width), Round(height);
      if CacheContains(src, w as real, h as real) {
        RoundWhole(w);
        RoundWhole(h);
        return Ok(GetImageFromCache(src, w as real, h as real).value);
      }
      RoundWhole(w);
      RoundWhole(h);
      if IsInternal(src) {
        r := GetInternalImage(src);
        if r.Ok? {
          AddImage(r.value, src);
        }
        return;
      }
      if CacheContains(src, 0.0, 0.0) {
        var image := GetImageFromCache(src, 0.0, 0.0).value;
        image := ScalePixelated(image, w as real, h as real);
        AddImage(image, src);
        return Ok(image);
      }
      r := Throws("Image not generated");
    }
  }

  /**
   * After a scaled copy is made, the next request for the same size is a cache hit
   * and serves that copy.
   */
  lemma ScaledThenHit(cache: map<string, Copies>, src: string, width: real, height: real)
    requires src in cache && BASE in cache[src]
    ensures var image := ScalePixelated(cache[src][BASE], Round(width) as real, Round(height) as real);
      var c := Added(cache, image, src);
      (Round(width), Round(height)) in c[src] && c[src][(Round(width), Round(height))] == image
  {
    RoundWhole(Round(width));
    RoundWhole(Round(height));
  }

  /**
   * `getImage` never replaces a base image: whichever branch runs, a cached `"0:0"`
   * copy of any source is still there afterwards.
   */
  lemma GetImageKeepsBase(cache: map<string, Copies>, src: string, width: real, height: real, s: string)
    requires s in cache && BASE in cache[s]
    requires !(src in cache && (Round(width), Round(height)) in cache[src])
    ensures IsInternal(src) && GetInternalImage(src).Ok? ==>
      var c := Added(cache, GetInternalImage(src).value, src);
      s in c && BASE in c[s] && c[s][BASE] == cache[s][BASE]
    ensures !IsInternal(src) && src in cache && BASE in cache[src] ==>
      var c := Added(cache, ScalePixelated(cache[src][BASE], Round(width) as real, Round(height) as real), src);
      s in c && BASE in c[s] && c[s][BASE] == cache[s][BASE]
  {
    RoundWhole(Round(width));
    RoundWhole(Round(height));
  }
}
