# City-Simulator terrain and tiles, modelled in Dafny

City-Simulator draws an isometric world of tiles in the browser. This project models its
core and proves properties of the model:

- **The terrain worker** (`generate` in the world generator worker). It lays out a
  staggered lattice of GRASS tiles with random heights, together with a column hash.
  It smooths the heights ten times by averaging over neighbours. It then floods the low
  tiles as WATER or DEEP_WATER, demotes isolated water, turns the shoreline to SAND, and
  adds DIRT under cliffs in `WORLD_HEIGHT` rounds.
- **The page's world** (`World`): stored tiles of a rectangle are served together with
  the lowest and highest heights seen, and the worker is asked otherwise. The page also
  has its own `#interpolate` and `#generateDirt` helpers.
- **The camera** (`Camera`): it clamps its position and asks for a strip of new terrain
  when it nears an edge. The zoom is bounded, and the zoom setter reverts when the
  position would no longer survive the clamp.
- **The tile store** (`TileManager`): merging loaded tiles, the drawing order, the
  column hash, `getTile`, the choice of the highlighted tile, and `Vehicle.moveTo`.
- **The cursor** (`Cursor`), and the frame window of `Debugging.render`.
- **The linked list** (`LinkedList`).
- **The image cache** (`Images`).
- **The superseded generator** (the legacy `World` class). It has a box-filter
  smoothing, max-filter water passes, a loose dirt rule and a (z, y) sort.

Representation:

- Horizontal coordinates are stored doubled (`hx = 2x`, `hz = 2z`). The half steps of
  the world become whole steps, and the lattice test `(x + z) % 1 == 0` becomes "hx + hz
  is even".
- Heights are tenths of a unit (`Tenths(v)`) or `NaN`.
  - The two water surfaces, WATER_LEVEL + 0.3 and WATER_LEVEL + 0.5, are exact.
  - The hash's `Math.round(10 * y)` is exact.
  - The mean over no neighbours (0 / 0) is NaN, as in JavaScript.
- `Math.round(p / q)` of a mean is `(2p + q) / (2q)`, for a positive count `q`.
- Region bounds are JavaScript numbers: a finite multiple of 0.5, +Infinity, -Infinity or NaN. This is
  because `Math.min()` of no tiles is +Infinity, and Infinity - Infinity is NaN.
- `Math.random()` is an input: a function `draw` from the tile's index to its height.
  The `contains` hit test of a tile is also an input predicate.
- The in-place loops of the source are methods with loop invariants. Each is proved to
  end where a specification function ends; the properties are proved about that function.
  - Flooding and the shoreline are proved equal to their simultaneous forms, so their
    result does not depend on visiting order.
  - Demotion depends on order, so it is specified as the fold over the indices.
- `Array.prototype.sort` is a stable insertion sort. `filter`, `map` and `forEach` are
  functions over sequences.

Where the code and its description disagree, the model follows the code:

- Lines 70-199 of `World.generate` are unreachable after the return at line 48. Only the
  path before them is modelled, and `#interpolate` and `#generateDirt` are modelled as
  standalone functions.
- `addImage` of an image whose size is 0x0 overwrites the `"0:0"` slot, because the size
  assignment comes second. So the base image keeps the first image added only when no
  0x0 image is added later (`Images.Added`).
- `getHighlightedTile` reads the cursor's selection as its fallback in the return,
  after the filter has cleared every flag. The fallback is the previously selected tile
  object, so its flag is cleared too (`TileManagers.TileManager.GetHighlightedTile`).
- The legacy `#generateDirt` is looser than its comment ("SW or SE"). It emits dirt when
  any tile anywhere in a line x ± 0.5 or z ± 0.5 is two lower, however far away. It is
  modelled as written, and `LegacyWorld.DirtIgnoresDistance` exhibits a tile ten units
  away causing dirt.

## Model

| member | source | states |
|---|---|---|
| Terrain.RoundDiv | resources/workers/World_Generator.mjs:149-151 | `Math.round(p / q)` for a positive count: the nearest whole number, halves rounded up |
| Terrain.KeyOfInjective | resources/workers/World_Generator.mjs:140-142 | two lattice columns with the same rounded key `(round(10x), round(10z))` are the same column |
| Hashing.NatToDecimal | resources/Drawable.mjs:63-65 | the decimal writing of a number is a non-empty string of digits |
| Hashing.DecimalRoundTrip | resources/Drawable.mjs:63-65 | reading back the decimal digits of a number gives the number |
| Hashing.IntToString | resources/Drawable.mjs:63-65 | a number is written as a numeral, with a leading minus exactly for negatives |
| Hashing.IntToStringInjective | resources/Drawable.mjs:63-65 | different whole numbers are written differently |
| Hashing.HeightToStringInjective | resources/Drawable.mjs:46-48 | different heights (or NaN) give different `round(10y)` strings |
| Hashing.NoSeparatorInHeight | resources/Drawable.mjs:46-48 | the written height holds only digits, a minus sign or the letters of NaN, so no other separator can occur inside it |
| Hashing.ColumnHashIdentifiesColumn | resources/Drawable.mjs:63-65 | `getHash(x, z)` of two columns is equal exactly when the columns are the same; it does not involve y |
| Hashing.WorkerHashIdentifiesColumn | resources/workers/World_Generator.mjs:140-142 | the worker's key, `round(10x)` and `round(10z)` joined by a bar, is equal exactly when the columns are the same |
| Hashing.TileKeyIdentifiesTile | resources/Drawable.mjs:46-48 | two tile keys are equal exactly when x, y and z are all equal |
| Drawables.DefaultType | resources/Drawable.mjs:295-305 | an explicit type is kept; otherwise the type is WATER exactly when y <= WATER_LEVEL, and GRASS otherwise |
| Drawables.Tile.constructor | resources/Drawable.mjs:295-305 | a new tile has the given position and height, the default type, and is not selected |
| Drawables.StackedTilesHaveDistinctKeys | resources/Drawable.mjs:46-65 | tiles share a column exactly when their `hash` strings are equal; tiles stacked in one column at different heights have different keys |
| Lattice.RowMembers | resources/workers/World_Generator.mjs:26-27 | one row of the grid loop visits exactly the lattice points of that row between its bounds |
| Lattice.ScanMembers | resources/workers/World_Generator.mjs:25-27 | the nested grid loops visit exactly the lattice points of the inclusive rectangle |
| Lattice.ScanIncreasing | resources/workers/World_Generator.mjs:25-27 | the grid loops visit points in z-major, x-minor order, each at most once |
| Lattice.RowIncreasing | resources/workers/World_Generator.mjs:26-27 | one row visits its points in increasing x, each once |
| ColumnIndex.IndexOfMembers | resources/workers/World_Generator.mjs:32-35 | every column of the hash lists, in push order, only tiles of that column, and every tile is listed in its column |
| ColumnIndex.IndexOfPrefix | resources/workers/World_Generator.mjs:99-106 | appending tiles leaves the hash of the earlier tiles as it was |
| ColumnIndex.IndexPlaces | resources/workers/World_Generator.mjs:43-45 | the hash depends only on positions, so rewriting heights and types keeps it valid |
| ColumnIndex.IndexPush | resources/workers/World_Generator.mjs:99-106 | pushing a tile onto the list pushes its index onto its own column and nowhere else |
| Grid.GridRow | resources/workers/World_Generator.mjs:26-36 | one pass of the inner loop appends the tiles of one lattice row and indexes them |
| Grid.BuildGrid | resources/workers/World_Generator.mjs:25-37 | the grid loops build the tile list of the lattice scan, with heights from `draw`, and its column hash |
| Grid.GridCovers | resources/workers/World_Generator.mjs:25-37 | every grid tile is GRASS, on the lattice, inside the inclusive rectangle and has a whole height in 0..WORLD_HEIGHT; every lattice point of the rectangle has a tile |
| Grid.GridKeysDistinct | resources/workers/World_Generator.mjs:25-37 | no two grid tiles share a column |
| Grid.GridOnePerColumn | resources/workers/World_Generator.mjs:32-35 | after the grid, every column list holds exactly one tile |
| Neighbours.VisitRow | resources/workers/World_Generator.mjs:160-164 | the inner neighbour loop collects the first tile of each existing column on one row of offsets |
| Neighbours.GetNeighbours | resources/workers/World_Generator.mjs:157-170 | `getNeighbours` returns the specification list: the first tile of each existing column around the tile, x-major, z-minor |
| Neighbours.NeighbourMembers | resources/workers/World_Generator.mjs:157-170 | a tile is a neighbour exactly when it is the first tile of some existing lattice column within the square radius, other than the centre |
| Neighbours.HalfDiagonalNeighbours | resources/workers/World_Generator.mjs:157-170 | at radius 0.5 the neighbours are the four half-diagonal columns only, in x-major order |
| Neighbours.RadiusOneNeighbours | resources/workers/World_Generator.mjs:157-170 | at radius 1 the neighbours come from exactly twelve offsets, in x-major, z-minor order |
| Neighbours.NeighboursAgree | resources/workers/World_Generator.mjs:157-170 | a test that gives the same answer on two tile lists gives the same `every` and `some` over their neighbours |
| Neighbours.NeighboursAreTiles | resources/workers/World_Generator.mjs:157-170 | what holds of every tile holds of every neighbour |
| Smoothing.Mean | resources/workers/World_Generator.mjs:149-151 | the rounded mean is a whole number when it is a number, and needs at least one neighbour |
| Smoothing.Interpolate | resources/workers/World_Generator.mjs:144-155 | `interpolate` returns one rounded neighbour mean per tile, in order, all computed from the list as it was |
| Smoothing.SmoothOnce | resources/workers/World_Generator.mjs:42-45 | one round assigns the heights only after all of them are computed (simultaneous) |
| Smoothing.Smooth | resources/workers/World_Generator.mjs:40-46 | the smoothing loop is ten simultaneous rounds |
| Smoothing.MeanWithin | resources/workers/World_Generator.mjs:149-151 | the rounded mean of whole heights in [a, b] is a whole height in [a, b] |
| Smoothing.MeanOfEqual | resources/workers/World_Generator.mjs:149-151 | the mean of equal heights is that height |
| Smoothing.MeanOfNone | resources/workers/World_Generator.mjs:149-151 | a tile with no neighbours gets NaN |
| Smoothing.UniformIsFixed | resources/workers/World_Generator.mjs:40-46 | when every tile has one height and a neighbour, a round changes nothing |
| Smoothing.SmoothKeepsPlacesAndTypes | resources/workers/World_Generator.mjs:43-45 | a round changes only heights: positions and types stay |
| Smoothing.SmoothKeepsRange | resources/workers/World_Generator.mjs:40-46 | a round keeps every height NaN or a whole number in [a, b] |
| Smoothing.SmoothRoundsKeepRange | resources/workers/World_Generator.mjs:40-46 | any number of rounds keeps heights NaN or whole in [a, b], and keeps positions and types |
| Smoothing.SmoothRoundsKeepPlaces | resources/workers/World_Generator.mjs:40-46 | any number of rounds keeps positions and types |
| WaterPasses.FloodKeepsWetOrLow | resources/workers/World_Generator.mjs:52-60 | flooding a tile never changes whether it counts as wet or low for its neighbours |
| WaterPasses.FloodLowTiles | resources/workers/World_Generator.mjs:50-62 | the in-place flooding loop equals the pass that judges every tile on the list before the pass, so visiting order does not matter |
| WaterPasses.DemoteIsolatedWater | resources/workers/World_Generator.mjs:64-76 | the in-place demotion loop is the fold over indices, each tile judged on the list as it is then |
| WaterPasses.DemotionSteps | resources/workers/World_Generator.mjs:64-76 | each visited tile stays or moves one step: DEEP_WATER to WATER at WL+0.5, or WATER to GRASS at WL+1; unvisited tiles are untouched |
| WaterPasses.DemotionKeepsPlaces | resources/workers/World_Generator.mjs:64-76 | demotion keeps every position |
| WaterPasses.ShoreKeepsShallow | resources/workers/World_Generator.mjs:78-91 | the shoreline pass never creates or removes a WATER tile |
| WaterPasses.MakeShore | resources/workers/World_Generator.mjs:78-91 | the in-place shoreline loop equals its simultaneous form |
| WaterPasses.ShoreEffect | resources/workers/World_Generator.mjs:78-91 | a dry tile at exactly WL+1 becomes SAND or is raised to WL+2, and every other tile is unchanged; a new SAND tile has a WATER neighbour at radius 1 |
| WaterPasses.FloodAndShoreKeepPlaces | resources/workers/World_Generator.mjs:50-91 | flooding and the shoreline pass keep every position |
| Dirt.DirtOf | resources/workers/World_Generator.mjs:172-189 | a dirt pass emits at most one tile per candidate |
| Dirt.GrassOf | resources/workers/World_Generator.mjs:174 | the GRASS filter keeps at most the tiles it is given |
| Dirt.GenerateDirt | resources/workers/World_Generator.mjs:172-189 | `generateDirt` emits the specification's dirt for its candidates |
| Dirt.IndexDirt | resources/workers/World_Generator.mjs:100-106 | pushing the new dirt into the hash gives the hash of the longer list |
| Dirt.DirtStep | resources/workers/World_Generator.mjs:97-106 | one round appends its dirt, indexes it, and makes the next round's candidates that dirt |
| Dirt.AddDirt | resources/workers/World_Generator.mjs:93-107 | the dirt loop runs exactly WORLD_HEIGHT rounds and keeps the hash in step |
| Dirt.GrassFromTiles | resources/workers/World_Generator.mjs:174 | the first round's candidates are GRASS tiles of the list |
| Dirt.GrassDistinct | resources/workers/World_Generator.mjs:174 | GRASS tiles of a list in distinct columns are in distinct columns |
| Dirt.DirtOfComplete | resources/workers/World_Generator.mjs:172-189 | a candidate is an origin exactly when its column has no tile at y-1 and its SE or SW column drops by two or more, and each such candidate gets its dirt tile at (x, y-1, z) |
| Dirt.DirtFromCandidates | resources/workers/World_Generator.mjs:172-189 | each dirt tile has its own earlier candidate, in order, and sits at (x, y-1, z) under it; that candidate's column has no tile at y-1 and its SE or SW column has a tile at y-2 or lower |
| Dirt.DirtOriginsAscending | resources/workers/World_Generator.mjs:172-189 | the dirt follows the candidates' order |
| Dirt.DirtDistinct | resources/workers/World_Generator.mjs:172-189 | candidates in distinct columns give dirt in distinct columns |
| Dirt.NewDirtNotStacked | resources/workers/World_Generator.mjs:176 | a new dirt tile is never at the height of a tile already in its column |
| Dirt.RoundUnstacked | resources/workers/World_Generator.mjs:96-107 | one round never puts two tiles of one column at one height |
| Dirt.RoundsUnstacked | resources/workers/World_Generator.mjs:93-107 | from tiles in distinct columns, no number of rounds ever puts two tiles of one column at one height, and each round's candidates stay in distinct columns |
| Dirt.DirtOfIsDirt | resources/workers/World_Generator.mjs:184 | everything a pass emits is DIRT |
| Dirt.RoundAppends | resources/workers/World_Generator.mjs:97-99 | a round only appends, and only DIRT |
| Dirt.RoundsOnlyAppend | resources/workers/World_Generator.mjs:93-107 | the dirt rounds keep the list before them as a prefix and append only DIRT |
| Dirt.RoundKeepsPlaces | resources/workers/World_Generator.mjs:184 | a property of positions that every tile and every candidate has also holds after one round, for the new dirt and the next candidates |
| Dirt.RoundsKeepPlaces | resources/workers/World_Generator.mjs:93-107 | a property of positions that every tile has holds of every tile after any number of rounds, dirt included |
| Generator.Surface | resources/workers/World_Generator.mjs:39-91 | the smoothing and classification passes keep the number of tiles |
| Generator.RunPasses | resources/workers/World_Generator.mjs:39-107 | the passes after the grid, run in place, give the specification's tiles |
| Generator.Generate | resources/workers/World_Generator.mjs:9-111 | the response echoes the four bounds and holds the tiles of all passes over the grid; when a bound is NaN it holds no tiles |
| Generator.FloodClassifies | resources/workers/World_Generator.mjs:50-62 | after flooding, a tile is GRASS above WATER_LEVEL, or DEEP_WATER at WL+0.3, or WATER at WL+0.5 |
| Generator.DemotionKeepsFlooded | resources/workers/World_Generator.mjs:64-76 | demotion keeps that classification |
| Generator.ShoreClassifies | resources/workers/World_Generator.mjs:78-91 | after the shoreline, SAND is exactly at WL+1 and no GRASS is left at WL+1 |
| Generator.SurfaceWithinWorld | resources/workers/World_Generator.mjs:39-91 | from whole heights in 0..WORLD_HEIGHT or NaN, every surface height after smoothing, flooding, demotion and the shoreline pass is NaN or in 0..WORLD_HEIGHT |
| Generator.GridSurfaceWithinWorld | resources/workers/World_Generator.mjs:19-91 | the surface of a generated grid has every height NaN or in 0..WORLD_HEIGHT |
| Generator.SurfaceClassified | resources/workers/World_Generator.mjs:39-91 | a GRASS grid comes out of the passes with its positions kept and every tile classified |
| Generator.NoTilesNoDirt | resources/workers/World_Generator.mjs:93-107 | no tiles give no dirt |
| Generator.GridDistinct | resources/workers/World_Generator.mjs:25-37 | the grid is all GRASS in distinct columns |
| Generator.PassesLayout | resources/workers/World_Generator.mjs:39-107 | after all passes, the grid's tiles keep their positions and are classified, all tiles after them are DIRT, and no column has two tiles at one height |
| Generator.GridInRegion | resources/workers/World_Generator.mjs:25-37 | every grid tile is inside the request's rectangle |
| Generator.PassesInRegion | resources/workers/World_Generator.mjs:39-107 | every tile of the response, dirt included, is inside the request's rectangle |
| Generator.GeneratedLayout | resources/workers/World_Generator.mjs:19-111 | a span that is not entered gives no tiles; otherwise every tile is in the rectangle, classified or DIRT, and unstacked |
| Worlds.Stored | resources/World.mjs:34 | the rectangle filter keeps at most the stored tiles |
| Worlds.StoredMembers | resources/World.mjs:34 | a stored tile is kept exactly when it lies in the inclusive rectangle |
| Worlds.Extremes | resources/World.mjs:38-43 | with numeric heights LOWEST_POINT becomes the minimum of the old value and all heights, and HIGHEST_POINT the maximum; one NaN height makes both NaN |
| Worlds.EchoAnswers | resources/World.mjs:49-66 | the worker's echo of the four bounds resolves the request exactly when no bound is NaN |
| Worlds.OtherBoundsIgnored | resources/World.mjs:51 | a response with other bounds never resolves the request |
| Worlds.World.constructor | resources/World.mjs:22-25 | LOWEST_POINT starts at WORLD_HEIGHT, HIGHEST_POINT at 0, and nothing is read from storage |
| Worlds.World.Rebuild | resources/World.mjs:38-43 | each tile is rebuilt with its x, y, z and type, in order, folding its height into the extremes |
| Worlds.World.Generate | resources/World.mjs:27-68 | storage is read once; caller tiles plus stored tiles of the rectangle are returned rebuilt when there are any, and otherwise only the four bounds are posted |
| Worlds.World.Receive | resources/World.mjs:49-64 | a response with the request's bounds resolves it with the rebuilt tiles; any other leaves everything unchanged |
| Worlds.Interpolate | resources/World.mjs:206-229 | one height per tile, in order: the rounded mean over the first tiles of the existing columns at the four axis offsets and the four half-diagonals |
| Worlds.PageReadsWorkerNeighboursButCorners | resources/World.mjs:206-229 | the page reads the worker's radius-1 neighbours except the four corner columns |
| Worlds.PageMeanWithin | resources/World.mjs:222-225 | the page's mean is NaN exactly when no neighbour column exists, and otherwise stays between the heights |
| Worlds.PageNeighboursWithin | resources/World.mjs:210-221 | the neighbours the page reads have heights between the least and the greatest of the tiles |
| Worlds.GenerateDirt | resources/World.mjs:235-252 | the page's `#generateDirt` emits, as drawn tiles, exactly the worker's dirt for the same candidates |
| Worlds.PageDirtComplete | resources/World.mjs:235-252 | every candidate without a tile at y-1 whose SE or SW column drops by two or more gets a drawn DIRT tile at y-1 below it |
| Worlds.PageDirtBelowCandidate | resources/World.mjs:235-252 | every dirt tile is DIRT at y-1 under a candidate without a tile at y-1 whose SE or SW column drops by two or more |
| Worlds.Clamp | resources/World.mjs:314-315 | `Math.min(hi, Math.max(0, v))`: in [0, hi] when hi >= 0, v itself when already inside |
| Worlds.ClampIdempotent | resources/World.mjs:314-315 | clamping twice is clamping once |
| Worlds.Least | resources/World.mjs:325-326 | `Math.min(...xs)` is +Infinity for no tiles and otherwise the least coordinate |
| Worlds.Greatest | resources/World.mjs:327-328 | `Math.max(...xs)` is -Infinity for no tiles and otherwise the greatest coordinate |
| Worlds.OnEdge | resources/World.mjs:335-341 | the connected tiles are exactly the loaded tiles on the edge row or column, in order |
| Worlds.EdgeHasTiles | resources/World.mjs:322-341 | with tiles loaded, each edge holds at least one tile |
| Worlds.Strip | resources/World.mjs:335-341 | a strip's connected tiles are loaded tiles, and there are some whenever tiles are loaded |
| Worlds.StripAvoidsTiles | resources/World.mjs:335-341 | a strip, from 0.5 beyond the edge to 16 beyond it, never overlaps a loaded tile |
| Worlds.StripBounds | resources/World.mjs:335-341 | with tiles loaded a strip is a finite non-empty rectangle the worker lays out; with none its span is NaN and the worker answers with no tiles |
| Worlds.EdgeRequest | resources/World.mjs:334-344 | no strip exactly when all four edge tests fail; otherwise the strip of the first edge whose test passes, in the order left, right, top, bottom |
| Worlds.Camera.constructor | resources/World.mjs:282-283 | the camera starts at (0, 0), zoom 1, not generating |
| Worlds.Camera.MoveTo | resources/World.mjs:309-349 | the target is clamped; reaching the current position returns false and changes nothing; otherwise the camera moves, and when not generating it dispatches at most one strip and raises the flag exactly when it does |
| Worlds.Camera.MoveBy | resources/World.mjs:293-296 | exactly `moveTo` of the sum: moves to the clamped sum keeping the zoom, or changes nothing when that is the current position; when not generating, returns the edge strip and raises the flag exactly when there is one, otherwise returns none |
| Worlds.Camera.SetZoom | resources/World.mjs:386-397 | the new zoom is kept, with position, flag and no request, when the position survives the clamp at it; otherwise the old zoom is restored and the camera does what moving by nothing does |
| Worlds.Camera.ZoomOut | resources/World.mjs:366-372 | at or below MIN_ZOOM nothing changes; otherwise the zoom becomes max(MIN_ZOOM, 0.9 zoom) with position and flag kept when the position fits there, and else stays while the camera moves by nothing; zoom never grows and a clamped position stays clamped |
| Worlds.Camera.ZoomIn | resources/World.mjs:374-380 | at or above MAX_ZOOM nothing changes; otherwise the zoom becomes min(MAX_ZOOM, 1.1 zoom) with position and flag kept when the position fits there, and else stays while the camera moves by nothing; a non-negative zoom never shrinks and a clamped position stays clamped |
| Sorting.Neg | resources/Drawable.mjs:364 | the key of a descending sort is the negated height, NaN staying NaN |
| Sorting.SortPermutes | resources/Drawable.mjs:330-331 | sorting keeps exactly the same elements |
| Sorting.SortSorted | resources/Drawable.mjs:330-331 | sorting by a numeric key orders by it |
| Sorting.SortThenSort | resources/Drawable.mjs:330-331 | a stable sort of a list already ordered by a second key orders lexicographically |
| Sorting.TwoSorts | resources/Drawable.mjs:330-331 | sorting by y and then stably by z gives ascending (z, y) order and a permutation |
| TileManagers.AddKeeps | resources/Drawable.mjs:333-341 | adding a tile keeps the hash well formed and free of duplicates, only extends lists, and lists the tile |
| TileManagers.AddAllKeeps | resources/Drawable.mjs:333-341 | merging a list keeps the hash well formed and lists every tile of it |
| TileManagers.AddAllListsOnly | resources/Drawable.mjs:333-341 | merging adds only tiles of the list |
| TileManagers.AddAllListed | resources/Drawable.mjs:335 | merging tiles already listed changes nothing |
| TileManagers.AddAllIdempotent | resources/Drawable.mjs:333-341 | merging twice is merging once |
| TileManagers.FindHeight | resources/Drawable.mjs:319-321 | the first index in the column whose y equals the given y, or none when no tile has it |
| TileManagers.TopIsHighest | resources/Drawable.mjs:388 | `Math.max` of a column's heights is one of them and at least every one; any NaN makes it NaN |
| TileManagers.Candidates | resources/Drawable.mjs:353-362 | the candidates are exactly the tiles that contain the point, in order |
| TileManagers.FrontmostIn | resources/Drawable.mjs:363-367 | the first sorted candidate is a candidate |
| TileManagers.FrontmostFirst | resources/Drawable.mjs:363-367 | the first sorted candidate has the greatest z, and among those the greatest y |
| TileManagers.TileManager.constructor | resources/Drawable.mjs:309-310 | the store starts empty |
| TileManagers.TileManager.GetTile | resources/Drawable.mjs:319-321 | an unknown column throws; otherwise the first tile of that column at that y, or none exactly when the column has no tile at that y |
| TileManagers.TileManager.GetTileFindsLoaded | resources/Drawable.mjs:319-321 | every loaded tile with a numeric height is found by its own coordinates |
| TileManagers.TileManager.Generate | resources/Drawable.mjs:327-345 | appends the loaded tiles, sorts by y then z, merges into the hash, moves the camera by nothing, returning the strip that move asks for when the camera was unclamped and not generating, and clears `generatingTerrain` |
| TileManagers.TileManager.AddLoaded | resources/Drawable.mjs:328-341 | the list becomes the sorted old tiles plus the new ones, a permutation of them, and the hash grows by their merge |
| TileManagers.TileManager.AddToHashes | resources/Drawable.mjs:333-341 | the `forEach` merge, leaving the tile list alone |
| TileManagers.GenerateKeepsValid | resources/Drawable.mjs:328-341 | after a merge every tile is in its column list, every listed tile is loaded, and old lists are kept |
| TileManagers.TileManager.ClearSelection | resources/Drawable.mjs:353-362 | the filter clears every tile's `selected` flag and returns the tiles that contain the point |
| TileManagers.TileManager.GetHighlightedTile | resources/Drawable.mjs:351-371 | no tile is left selected; the result is the frontmost candidate, or the fallback when none contains the point |
| TileManagers.HighlightedIsFrontmost | resources/Drawable.mjs:351-371 | the highlighted tile contains the point and has the greatest z, then the greatest y, of all tiles that do |
| TileManagers.Vehicle.constructor | resources/Drawable.mjs:376-379 | a vehicle has the given position |
| TileManagers.Vehicle.MoveTo | resources/Drawable.mjs:385-389 | sets x and z; an unknown column throws; otherwise y becomes one above the column's highest tile |
| TileManagers.VehicleSitsOnTop | resources/Drawable.mjs:385-389 | a moved vehicle sits exactly one unit above the highest tile of its column |
| Cursors.OrElse | resources/index.mjs:177-178 | the `or` of the new and the previous value: a coordinate is replaced exactly when the new value is present and not 0 |
| Cursors.Cursor.constructor | resources/index.mjs:132-133 | the cursor starts at (0, 0) with no tile selected |
| Cursors.Cursor.GetPosition | resources/index.mjs:184-186 | the last stored position |
| Cursors.Cursor.GetSelectedTile | resources/index.mjs:161-163 | the stored selection |
| Cursors.Cursor.SetLastKnownPosition | resources/index.mjs:176-179 | each coordinate changes only to a truthy new value; an undefined value changes nothing |
| Cursors.Cursor.DeselectTile | resources/index.mjs:151-156 | clears the selected tile's flag and keeps the reference |
| Cursors.Cursor.UpdateSelectedTile | resources/index.mjs:165-171 | the selection becomes the highlighted tile (or stays, as the fallback), marked selected, and it is the only flagged tile |
| Cursors.Recent | resources/index.mjs:230 | the timestamps newer than a second ago, in order |
| Cursors.Debugging.constructor | resources/index.mjs:221 | no frames have been recorded yet |
| Cursors.Debugging.Render | resources/index.mjs:228-231 | drops frames older than a second, appends this one, and shows their count |
| Cursors.RecentOrdered | resources/index.mjs:230 | filtering keeps the timestamps in order |
| Cursors.RenderWindow | resources/index.mjs:228-231 | with a clock that never goes back, the frames kept are in order, all within the last second, ending with this frame |
| LinkedLists.Skip | resources/LinkedList.mjs:52-68 | removing the element at an index keeps the others in order |
| LinkedLists.Visits | resources/LinkedList.mjs:70-77 | each value with its index, in order |
| LinkedLists.MatchFrom | resources/LinkedList.mjs:79-92 | the first index whose callback is true, or none |
| LinkedLists.Kept | resources/LinkedList.mjs:94-106 | exactly the indices whose callback is true, ascending |
| LinkedLists.MatchingPicksKept | resources/LinkedList.mjs:94-106 | `filter` keeps exactly the values at those indices, in order |
| LinkedLists.KeptAll | resources/LinkedList.mjs:94-106 | a callback that answers true everywhere keeps every index |
| LinkedLists.KeptNone | resources/LinkedList.mjs:94-106 | a callback that answers false everywhere keeps nothing |
| LinkedLists.MatchingAll | resources/LinkedList.mjs:94-106 | a callback that accepts everything copies the list |
| LinkedLists.Node.constructor | resources/LinkedList.mjs:1-10 | a node holds its value and no successor |
| LinkedLists.LinkedList.constructor | resources/LinkedList.mjs:12-23 | a new list is empty |
| LinkedLists.LinkedList.Length | resources/LinkedList.mjs:17-19 | `length` is the number of values |
| LinkedLists.LinkedList.Add | resources/LinkedList.mjs:25-39 | the value becomes last, the earlier values stay, and the list stays well linked |
| LinkedLists.LinkedList.Walk | resources/LinkedList.mjs:44-47 | walking `index` steps from the head reaches the node at `index` |
| LinkedLists.LinkedList.Get | resources/LinkedList.mjs:41-50 | the value at an index in range, and "OutOfBoundsException" otherwise |
| LinkedLists.LinkedList.NextOf | resources/LinkedList.mjs:1-10 | each node links to the next one and the last to nothing |
| LinkedLists.LinkedList.RemoveAsWritten | resources/LinkedList.mjs:52-54 | out of range throws "OutOfBoundsException"; in range the assignment to the getter-only `length` throws a TypeError |
| LinkedLists.LinkedList.Bypass | resources/LinkedList.mjs:56-67 | unlinking skips the node at the index and leaves `tail` where it was |
| LinkedLists.LinkedList.BypassHead | resources/LinkedList.mjs:56-59 | removing index 0 moves the head to the second node and keeps the rest |
| LinkedLists.LinkedList.BypassAfter | resources/LinkedList.mjs:61-67 | the node before the index links past the removed node; the others keep their order |
| LinkedLists.LinkedList.UnlinkKeepingTail | resources/LinkedList.mjs:52-68 | the unlinking as written removes the value but, for the last index, leaves `tail` on a node the list no longer holds |
| LinkedLists.LinkedList.Remove | resources/LinkedList.mjs:52-68 | out of range throws and changes nothing; otherwise the value at the index is gone, the others keep their order, and the list stays valid |
| LinkedLists.LinkedList.ForEach | resources/LinkedList.mjs:70-77 | the callback is called with each value and its index, in insertion order |
| LinkedLists.LinkedList.Find | resources/LinkedList.mjs:79-92 | the first value whose callback is true, or undefined |
| LinkedLists.LinkedList.Filter | resources/LinkedList.mjs:94-106 | a new list of exactly the matching values in order, the receiver unchanged |
| Images.Round | resources/Images.mjs:46-47 | `Math.round`: the nearest whole number, halves up |
| Images.RoundWhole | resources/Images.mjs:46-47 | rounding a whole number gives it back |
| Images.Textures | resources/Images.mjs:72-74 | the values of Tiles, Buildings, Boats, Internal and UI, in that order |
| Images.TexturesSorted | resources/Images.mjs:2-27 | the textures are distinct, exactly the hover outlines carry the `internal:` prefix, and the rest are under `images/` |
| Images.DrawInternal | resources/Images.mjs:41 | only the two hover outlines can be drawn; any other name throws |
| Images.GetInternalImage | resources/Images.mjs:39-42 | a name without the `internal:` prefix is refused |
| Images.InternalTexturesDraw | resources/Images.mjs:39-42 | every internal texture can be drawn |
| Images.ScalePixelated | resources/Images.mjs:95-108 | the scaled copy has the rounded size |
| Images.Added | resources/Images.mjs:33-37 | the image is stored under its size; the base slot takes the image when the source had none, and keeps an earlier image unless the new one is 0x0; other sources and sizes stay |
| Images.AddedKeepsKeys | resources/Images.mjs:33-37 | adding never drops a source or a size |
| Images.AddedIdempotent | resources/Images.mjs:33-37 | adding the same image twice is adding it once |
| Images.ImageCache.constructor | resources/Images.mjs:44 | the cache starts empty |
| Images.ImageCache.GetImageFromCache | resources/Images.mjs:76-81 | the copy of `src` at the rounded size, defined exactly when cached |
| Images.ImageCache.AddImage | resources/Images.mjs:33-37 | the cache becomes the `Added` map |
| Images.ImageCache.GetImage | resources/Images.mjs:45-70 | a hit is served unchanged; an internal miss draws and adds; a miss with a base scales and adds; otherwise "Image not generated" |
| Images.ScaledThenHit | resources/Images.mjs:59-67 | after a scaled copy is added, the same request hits it |
| Images.GetImageKeepsBase | resources/Images.mjs:45-70 | whichever branch runs, every cached base image stays |
| LegacyWorld.NewTile | resources/Drawable.js:139-147 | an explicit type is kept; otherwise WATER at or below 14 and GRASS above |
| LegacyWorld.FilterMembers | resources/World.js:28-29 | `filter` keeps exactly the elements that pass |
| LegacyWorld.FilterSplit | resources/World.js:28-29 | the water and the non-water filters together count every tile once |
| LegacyWorld.FilterAll | resources/World.js:28-29 | filtering a list whose every element passes returns it unchanged |
| LegacyWorld.FilterNone | resources/World.js:28-29 | filtering a list none of whose elements passes leaves nothing |
| LegacyWorld.MaxY | resources/World.js:72 | `Math.max` of the box heights is one of them and at least every one |
| LegacyWorld.Place | resources/World.js:14-15 | each grid point becomes a default-typed tile with its drawn height |
| LegacyWorld.GridRow | resources/World.js:12-16 | one inner loop appends one lattice row |
| LegacyWorld.GenerateGrid | resources/World.js:11-17 | the grid loops place the lattice points of [-1, width] x [-1, height] |
| LegacyWorld.GridCovers | resources/World.js:11-17 | grid tiles are default-typed with heights in 0..32, on lattice points of the rectangle, one per point, and every lattice point has one |
| LegacyWorld.Box | resources/World.js:56 | a tile's own box holds at least the tile |
| LegacyWorld.BoxMembers | resources/World.js:56 | the box holds exactly the tiles within 1 on both axes |
| LegacyWorld.MeanBetween | resources/World.js:57-58 | the rounded mean stays between the least and greatest height |
| LegacyWorld.Smoothed | resources/World.js:56-58 | a smoothed tile keeps its position and gets the default type for its new height |
| LegacyWorld.Interpolated | resources/World.js:53-62 | `#interpolate` keeps the length and positions, and every tile is default-typed |
| LegacyWorld.Interpolate | resources/World.js:53-62 | the `forEach` loop builds the specification's list |
| LegacyWorld.InterpolatedWithin | resources/World.js:53-62 | smoothing keeps heights within their bounds |
| LegacyWorld.SmoothedCountsItself | resources/World.js:56 | each tile's box includes the tile itself |
| LegacyWorld.Raised | resources/World.js:71-73 | the new water tile keeps its position and is default-typed |
| LegacyWorld.InterpolatedWater | resources/World.js:68-77 | one tile per WATER tile, in order, at its position |
| LegacyWorld.InterpolateWater | resources/World.js:68-77 | the `forEach` loop builds the specification's list |
| LegacyWorld.RaisedNeverLower | resources/World.js:68-77 | a water tile's new height is the height of some tile of its box and never lower than its own; it stays WATER when all heights are at most 14 |
| LegacyWorld.WaterOfWater | resources/World.js:70 | filtering a list of water for water keeps all of it |
| LegacyWorld.WaterPassKeepsCount | resources/World.js:28-30 | a water pass keeps the number of tiles |
| LegacyWorld.WaterPassKeepsWater | resources/World.js:28-30 | on default-typed tiles a water pass keeps them default-typed and keeps the number of water tiles |
| LegacyWorld.WaterPassWithin | resources/World.js:28-30 | a water pass keeps heights within their bounds |
| LegacyWorld.DirtFor | resources/World.js:90 | the dirt tile sits one below the tile |
| LegacyWorld.DirtOf | resources/World.js:82-95 | at most one dirt tile per tile |
| LegacyWorld.DirtOfSound | resources/World.js:82-95 | every dirt tile sits under a tile with no DIRT at its own place and some tile two lower on a line x ± 0.5 or z ± 0.5 |
| LegacyWorld.DirtOfComplete | resources/World.js:82-95 | every such tile gets its dirt |
| LegacyWorld.GenerateDirt | resources/World.js:82-95 | the `forEach` loop builds the specification's list |
| LegacyWorld.DirtOfTyped | resources/World.js:85 | on default-typed tiles no DIRT exists, so only the drop decides |
| LegacyWorld.DirtWithin | resources/World.js:82-95 | dirt heights are one inside the tiles' bounds |
| LegacyWorld.DirtIgnoresDistance | resources/World.js:89 | a tile on the line x + 0.5 but ten units away in z makes the tile at the origin emit dirt |
| LegacyWorld.Smoothings | resources/World.js:19-23 | the five smoothings keep the length and leave every tile default-typed |
| LegacyWorld.WaterPasses | resources/World.js:25-31 | the five water passes keep the length |
| LegacyWorld.SmoothingsWithin | resources/World.js:19-23 | the smoothings keep heights within their bounds |
| LegacyWorld.WaterPassesWithin | resources/World.js:25-31 | the water passes keep heights within their bounds |
| LegacyWorld.WaterPassesKeepWater | resources/World.js:25-31 | the water passes keep tiles default-typed and the water count |
| LegacyWorld.Generate | resources/World.js:5-47 | `generate` builds the grid, smooths five times, runs five water passes, puts the dirt in front and sorts |
| LegacyWorld.TerrainFacts | resources/World.js:11-37 | the terrain has one tile per grid point, all default-typed, as much water as after smoothing, and heights with dirt within 0..32 |
| LegacyWorld.GeneratedWorld | resources/World.js:5-47 | the world is a permutation of dirt plus terrain, within 0..32, in ascending (z, y) order |

## Left out

- Storage: `Storage.getAll` is the input `storage`, read once. `saveAll`, and the IndexedDB layers behind both, are not modelled.
- Messaging: the worker's asynchronous `postMessage`/`onmessage`, the promise, and event listener registration. The round trip is a message out (`Worlds.Message`) and a response in (`Worlds.World.Receive`).
- Randomness: `Math.random()` heights are the input `draw`. The model covers every sequence of draws, not their distribution.
- Screen geometry: the `contains` hit test, screen positions and `getMiddlePoint` use floating-point geometry.
  - `contains` is an input predicate.
  - The edge tiles' screen positions are inputs to `Worlds.Camera.MoveTo`.
  - The clamp corner at a zoom is the camera's `corner`.
- Generator.Generate: requires that a loop which is entered has finite bounds. From an infinite bound the source's `+= 0.5` loops never end, so these requests have no result to model.
- Worlds.World.Generate: `tiles.push(...)` at `resources/World.mjs:34` appends to the caller's array, while the model takes the list as a value. No caller can see the difference: every caller passes nothing and gets a fresh `[]`.
- Worlds.World.Generate: the listener is removed with the global `removeEventListener` (`resources/World.mjs:52`), not on the worker it was added to, so in the source it is never removed. The model handles each response once and does not model listener registration.
- Worlds.Camera.MoveTo: does not compute which loaded tile's screen position is read. Because the geometry is floating point, the positions are parameters.
- Side effects: console output, `performance.now()` timing and the redraw calls (`LayerManager.shouldRenderLayer`, `Cursor.updateSelectedTile` in `moveBy`). `Debugging.render` takes its time as an input, and its drawing is not modelled.
- Dead code:
  - `getHeightMap` is never called.
  - `#spawnHouses` returns `[]` at once.
  - `World.generate` lines 70-199 are unreachable, and so is the worker's "stored tiles" branch, since `tiles` is always empty there.
- Cursors.OrElse: a NaN coordinate is left out. The cursor's coordinates are reals, and a NaN would keep the previous value like 0 does.
- Sorting.SortBy: with a NaN key the source's comparator is inconsistent, and the order JavaScript's `sort` then produces is implementation-defined. The stable insertion sort is one admissible order, so the model promises that order only.
- Worlds.Camera.SetZoom: the image refresh after a zoom change is left out. It only redraws cached images at the new size.
- TileManagers.TileManager.GetHighlightedTile: the `instanceof Tile` test is left out. The tile list holds only tiles here.
- TileManagers.TileManager.Generate: the await of `World.generate` is left out. The loaded tiles are the method's input.
- LinkedLists.LinkedList.Get: indices that are not whole numbers are left out. The model takes integers; JavaScript's fractional index would walk `ceil(index)` steps.
- Images.GetImageKeepsBase: a NaN width or height is left out. `Math.round` of a number is a whole number in the model.
- Images: `getHover` is left out; it looks up a name never added. The pixel content of `scalePixelated` and of the drawn internal images is left out; images are their origin and size.
- TileManagers.Vehicle.constructor: the boat texture chosen by `type` is left out. Only the position matters to `moveTo`.
- LegacyWorld.Generate: widths and heights that are not whole numbers are left out.
- LegacyWorld.Smoothed: floating-point rounding of the mean is left out. Heights are whole numbers, so the sums are exact.
- JavaScript arithmetic: sums of tenths are exact in the model, while JavaScript's floating point can be off in the last bit. The worker's `WATER_LEVEL + 0.3` and 0.5 have exact decimal surfaces here.
- `Drawable.render`, the UI, menus, layers and the legacy `Drawable.js` geometry are not part of this model.
- The `Tile` of the legacy generator comes from `Drawable.js`, and its `World.WATER_LEVEL` is taken as the legacy generator's 14. The legacy `World.js` imports neither `Tile` nor `Images`.

## Findings

| source | as written | input that shows it | evidently intended | confidence | as-written member | corrected member |
|---|---|---|---|---|---|---|
| resources/LinkedList.mjs:54 | `this.length -= 1` assigns to `length`, which has only a getter; module code is strict, so it throws a TypeError before any node is unlinked | any list with one value, `remove(0)` | decrement `#length` and unlink the node | not executed | LinkedLists.LinkedList.RemoveAsWritten | LinkedLists.LinkedList.Remove |
| resources/LinkedList.mjs:56-67 | unlinking never updates `tail`; removing the last node leaves `tail` on the removed node, so a later `add` links after a node the list no longer reaches | latent behind the row above, which throws first: once line 54 is repaired, a list [a, b], `remove(1)` then `add(c)` | move `tail` to the node before the removed last node | not executed | LinkedLists.LinkedList.UnlinkKeepingTail | LinkedLists.LinkedList.Remove |
