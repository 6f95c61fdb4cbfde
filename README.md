# Labyrinth game: map collision, assets, animation, footprints and movement

A Dafny model of the core of a small top-down pygame labyrinth game. The game
loads Tiled JSON maps (`.tmj`) and tilesets (`.tsj`), builds a collision index
from them, and moves a player through the map.

The model covers:

- **Collision index** (`Collision`, src/components/collision.py). It builds:
  - the set of collidable global tile ids (gids), from the tileset-level and
    tile-level `collidable` properties and the "Water" override;
  - the collision-layer rectangles, in tile units;
  - a list of `map_height` rows of `map_width` booleans, filled only with
    `True`.

  It answers point queries with a cell lookup and then a half-open
  rectangle test.
- **Tile maps** (`World` for src/core/world.py, `LegacyWorld` for the older
  src/world.py, which keeps the collision state in the map itself). They
  cover:
  - the `load_map` order: sizes, collision state, tilesets, layers, objects,
    collidable gids, grid;
  - tileset path resolution (`MapLoading.ResolveTilesetPath`);
  - tileset registration by `firstgid`;
  - animated tiles at `firstgid + n` for clips named `tile_<n>`;
  - the gid to tileset lookup with its source-rectangle arithmetic.
- **Asset manager** (`Assets`, src/asset_manager.py). It covers:
  - the tileset cache;
  - the image-path rewrite;
  - the defaults of a tileset record;
  - clip parsing (`tile_<id>` with frames, durations in seconds and total);
  - `get_animation` and the frame regions of `create_animation_frames`.
- **Animated tiles** (`Animations`, src/components/animations.py). They cover:
  - the clip chosen at construction;
  - the clips tagged by `direction` and `state`;
  - switching between clips;
  - the frame advance of `update`;
  - the frame shown.
- **Footprints** (`Footprints`, src/effects/footprint.py). They cover:
  - the foot offset and rotation tables;
  - diagonal detection;
  - the step-distance test and foot alternation;
  - ageing and removal of footprints.
- **Player movement**:
  - `Movement` for src/entities/player.py: the input vector with diagonal
    scaling, the clamp to the map, the sub-step loop with per-axis revert,
    the eight-point collision sample, facing, the moving flag, footprints
    and the sprite;
  - `LegacyMovement` for src/player.py: one X-then-Y move with wall sliding.

Support modules:

- `Wrappers` holds `Option`.
- `Strings` holds the Python string operations used: `split`, `join`,
  `replace`, `lower`, `int()`, `str()`, `basename`, `dirname`.
- `Numeric` holds truncation, floor division and the tile index of a
  coordinate.
- `Tiled` holds the decoded documents and records, and insertion-ordered
  dicts.

Files, JSON and the working directory enter as parameters:

- `Files` maps a path to a missing, malformed or parsed tileset document.
- `MapFiles` does the same for maps.
- `Relocate` stands for the `normpath`/`relpath` branch of path resolution.

Coordinates, durations and lifetimes are `real`.

The code behaves as follows, and the model with it:

- collision objects are rectangles only; there are no polygons, ellipses or
  spatial grid;
- zero-size objects are kept;
- in src/entities/player.py a blocked X sub-step ends the tick's loop, so
  there is no wall sliding within the tick;
- the clamp to the map is applied to the target before any collision test.

## Model

| member | source | states |
|---|---|---|
| Collision.GidRangeMembers | src/components/collision.py:35-37 | `range(tilecount)` from `firstgid` holds exactly the gids `firstgid <= g < firstgid + tilecount` |
| Collision.FlaggedGidsExactly | src/components/collision.py:41-51 | a tile entry whose `collidable` property is "true" (any case) adds exactly `firstgid + id`; no other gid comes from the tile entries |
| Collision.TilesetFlagCoversRange | src/components/collision.py:24-38 | a tileset whose own properties say collidable makes every gid of its range collidable |
| Collision.FlaggedTileIsCollidable | src/components/collision.py:41-51 | a flagged tile entry makes `firstgid + id` collidable |
| Collision.WaterOverride | src/components/collision.py:54-58 | in the tileset named "Water", one flagged tile makes the whole gid range collidable |
| Collision.CollidableGidHasSource | src/components/collision.py:19-59 | conversely, each collidable gid comes from a flagged tileset's range, a flagged tile, or the Water range of some registered tileset |
| Collision.HasCollidableFlag | src/components/collision.py:24-31 | the tileset-level scan answers whether some property is `collidable` with a true value |
| Collision.AddRange | src/components/collision.py:34-37 | the set grows by exactly the range `firstgid..firstgid+count-1` |
| Collision.MarkTileset | src/components/collision.py:19-59 | one tileset's pass adds exactly that tileset's collidable gids to the set |
| Collision.MarkCollidable | src/components/collision.py:13-59 | identification adds exactly the collidable gids of all tilesets to what was there; the set never shrinks |
| Collision.CollidableOverStep | src/components/collision.py:19 | adding one more tileset to those scanned adds exactly its collidable gids, whatever the iteration order |
| Collision.ObjectsFromCount | src/components/collision.py:69-88 | one rectangle per object of every collision layer; zero-size objects are not dropped |
| Collision.ObjectsFromAppend | src/components/collision.py:69-88 | loading two lists of layers in turn appends their rectangles in order |
| Collision.ToTilesRoundTrip | src/components/collision.py:75-78 | scaling a rectangle back by the tile size gives the object's pixel rectangle |
| Collision.LoadObjects | src/components/collision.py:63-91 | the rectangles of exactly the `objectgroup` layers whose lower-cased name holds "collision" are appended, in order |
| Collision.EmptyGrid | src/components/collision.py:9 | the initial grid has `map_height` rows of `map_width` cells, all False |
| Collision.BuiltKeepsSetCells | src/components/collision.py:118-136 | the build only ever sets cells |
| Collision.BuiltIdempotent | src/components/collision.py:93-137 | building again from the same inputs changes nothing |
| Collision.BuiltFromEmpty | src/components/collision.py:101-137 | from the all-False grid a cell ends set exactly when a visible tile layer holds a collidable nonzero gid at `y*width+x` or an object's clamped, end-inclusive cell range covers it |
| Collision.OnlyVisibleTileLayersMark | src/components/collision.py:102 | hidden layers and non-tile layers never mark a cell |
| Collision.ObjectCoversItsPoints | src/components/collision.py:127-130 | the cell holding any on-map point of an object's pixel rectangle is marked by that object, thanks to the inclusive end cell |
| Collision.SpanCovers | src/components/collision.py:127-130 | on one axis, the cell of a point inside `[x, x+w)` lies in `[int(x), int(x+w)+1)` |
| Collision.MarkLayer | src/components/collision.py:101-122 | one tile layer's pass sets exactly the cells that layer marks and keeps the others |
| Collision.MarkObject | src/components/collision.py:125-137 | one object's pass sets exactly the in-map cells of its clamped range and keeps the others |
| Collision.BuildGrid | src/components/collision.py:93-137 | the grid after the build is `Built`: every cell set before, by a visible tile layer, or by an object |
| Collision.QueryPoint | src/components/collision.py:156-183 | the answer is "the point's floor-divided cell is on the map and set, or the point lies in some object's half-open pixel rectangle" |
| Collision.ObjectPointsAreCellBlocked | src/components/collision.py:165-181 | on the map, a grid built from the same objects already blocks every point inside an object, so the object test adds nothing there |
| Collision.OffMapPointsUseObjectsOnly | src/components/collision.py:161-168 | a point off the map never reads the grid: only the rectangles can block it |
| Collision.CollisionManager.constructor | src/components/collision.py:2-11 | the sizes as given, an all-False grid of the map's shape, no collidable gids, no objects |
| Collision.CollisionManager.IdentifyCollidableTiles | src/components/collision.py:13-59 | the set grows by exactly the tilesets' collidable gids |
| Collision.CollisionManager.LoadCollisionObjects | src/components/collision.py:63-91 | the collision layers' rectangles are appended, in order |
| Collision.CollisionManager.BuildCollisionMap | src/components/collision.py:93-137 | the grid becomes `Built` from the old grid, the layers, the collidable gids and the stored objects, and keeps its shape |
| Collision.CollisionManager.IsTileCollidable | src/components/collision.py:149-154 | membership in the collidable set, independent of position |
| Collision.CollisionManager.IsPositionCollidable | src/components/collision.py:156-183 | the cell test, then the half-open rectangle test |
| MapLoading.FirstIndex | src/core/world.py:110 | `parts.index(s)`: the first position holding s |
| MapLoading.ResolveTilesetPath | src/core/world.py:85-115 | a path starting "/" or "data/" is kept; otherwise the relocated path if there is one; otherwise a `../` path with a `tilesets` segment becomes "data/assets/" plus the segments from the first `tilesets` on; otherwise "data/assets/tilesets/" plus the base name |
| MapLoading.TilesetsTailIsSuffix | src/core/world.py:105-112 | the rebuilt tail is the source's own text from a segment boundary on, starting with `tilesets` |
| MapLoading.FallbackKeepsBasename | src/core/world.py:115 | the fallback is "data/assets/tilesets/" followed by a slash-free suffix of the source |
| MapLoading.ResolveSettles | src/core/world.py:89-115 | a resolved path that did not come from relocation resolves to itself again |
| MapLoading.SplitAtSeparator | src/core/world.py:105-108 | a source holding a '/' splits into at least two segments |
| MapLoading.ClipTileId | src/core/world.py:162-164 | only names starting `tile_` carry a tile id; a non-integer suffix gives none, as the swallowed `ValueError` does |
| MapLoading.NoUnderscoreInNumber | src/core/world.py:164 | the decimal text of an id holds no `_`, so `split("_")[1]` is the whole number |
| MapLoading.ClipNameRegisters | src/core/world.py:162-166 | each clip name `tile_<n>` the asset manager writes registers tile id n |
| MapLoading.RegisterClipsMembers | src/core/world.py:159-176 | a gid is registered exactly when it was already or some clip names tile `gid - firstgid`; a new registration holds (path, `gid - firstgid`) and other gids keep theirs |
| MapLoading.ParsedClipsRegister | src/core/world.py:159-176 | for a parsed tileset file, gid g is registered exactly when some tile declares an animation with id `g - firstgid` |
| MapLoading.FileReaderIsLoaded | src/core/world.py:128 | loading against the cache through the reader is the asset manager's `load_tileset` and its cache update |
| MapLoading.Stored | src/core/world.py:130-155 | the stored record is the loaded one with the map's `firstgid`, the re-read document as `original_data`, and its `properties` when present; nothing else changes |
| MapLoading.LoadOneImages | src/core/world.py:117-178 | one reference stores its record under its firstgid exactly when it has a source and loads; other firstgids keep theirs; the cache keeps agreeing with the files |
| MapLoading.LoadAllImages | src/core/world.py:61-63 | after the tileset loop a firstgid is stored exactly when it was before or some reference with that firstgid loads |
| MapLoading.LoadAllLastWins | src/core/world.py:61-63 | when several references share a firstgid, the last one that loads is stored |
| MapLoading.OwnerUnique | src/core/world.py:186-187 | a gid has at most one owning tileset: the largest firstgid not above it |
| MapLoading.Largest | src/core/world.py:186 | the scan finds the largest firstgid |
| MapLoading.SheetLookup | src/core/world.py:185-205 | no tileset exactly when the gid is below every firstgid; otherwise the owner's image and the region of local tile `gid - firstgid` |
| MapLoading.SheetRecoversGid | src/core/world.py:189-194 | the region's origin gives the gid back: `firstgid + row * columns + column` |
| MapLoading.SheetsDistinct | src/core/world.py:189-194 | two gids of one tileset are cut from different regions |
| World.CacheStaysReadable | src/asset_manager.py:72-138 | a cache filled from readable tileset files stays readable |
| World.TileMap.constructor | src/core/world.py:9-76 | an unreadable map leaves zero sizes, no layers, no tilesets and no collision manager; a readable one is in the state `load_map` promises |
| World.TileMap.LoadMap | src/core/world.py:28-76 | an unreadable map changes nothing; otherwise the sizes with defaults 16/16/0/0, the tilesets loaded in order, the layers, and a new collision manager holding the objects, the collidable gids and the grid built from both, in that order |
| World.TileMap.LoadDocument | src/core/world.py:43-76 | the same for a document already read |
| World.TileMap.Prepare | src/core/world.py:43-66 | sizes, an empty fresh collision manager of the map's shape, the tileset loop, then the layers |
| World.TileMap.FillCollision | src/core/world.py:69-76 | objects first, then collidable gids from all loaded tilesets, then the grid built from them |
| World.TileMap.LoadTilesets | src/core/world.py:61-63 | the tileset loop equals loading the references one after the other |
| World.TileMap.LoadTileset | src/core/world.py:117-178 | one reference: resolve, load through the cache, store with its firstgid, register its animated gids |
| World.TileMap.MakeAnimatedTiles | src/core/world.py:158-176 | the animated tiles become `RegisterClips` of the old ones; the cache is unchanged |
| World.TileMap.AddAnimatedTile | src/core/world.py:169-173 | exactly one gid gets the animated tile for (path, tile id) |
| World.TileMap.IsTileCollidable | src/core/world.py:79-80 | delegated: membership in the manager's collidable set |
| World.TileMap.IsPositionCollidable | src/core/world.py:82-83 | delegated: the manager's point query |
| World.TileMap.GetTileImage | src/core/world.py:180-205 | an animated gid shows its tile's current frame; otherwise no image exactly when the gid is below every firstgid, else the owner's region for the gid |
| LegacyWorld.TileMap.constructor | src/world.py:8-78 | as in the later map, with the grid, the collidable set and the rectangles kept in the map itself |
| LegacyWorld.TileMap.LoadMap | src/world.py:28-78 | an unreadable map changes nothing; otherwise sizes, an empty grid and rectangle list, the tilesets, the layers, the rectangles, the collidable gids added to those already known, and the grid |
| LegacyWorld.TileMap.LoadDocument | src/world.py:43-78 | the same for a document already read |
| LegacyWorld.TileMap.Prepare | src/world.py:43-64 | sizes, an all-False grid of the map's shape, no rectangles, the tileset loop, then the layers |
| LegacyWorld.TileMap.FillCollision | src/world.py:67-78 | rectangles, then collidable gids, then the grid built from them |
| LegacyWorld.TileMap.LoadTilesets | src/world.py:58-60 | the tileset loop equals loading the references one after the other |
| LegacyWorld.TileMap.LoadTileset | src/world.py:254-315 | resolve, load through the cache, store with the firstgid, record the animated gids |
| LegacyWorld.TileMap.RegisterAnimated | src/world.py:295-313 | each clip named `tile_<n>` records gid `firstgid + n`; bad suffixes are skipped |
| LegacyWorld.TileMap.IdentifyCollidableTiles | src/world.py:80-128 | the set grows by exactly the tilesets' collidable gids and is never cleared |
| LegacyWorld.TileMap.LoadCollisionObjects | src/world.py:431-459 | the collision layers' rectangles are appended, in order |
| LegacyWorld.TileMap.BuildCollisionMap | src/world.py:130-176 | the grid becomes `Built` from the layers, the collidable gids and the rectangles |
| LegacyWorld.TileMap.IsTileCollidable | src/world.py:186-191 | membership in the collidable set |
| LegacyWorld.TileMap.IsPositionCollidable | src/world.py:193-220 | the cell test, then the half-open rectangle test |
| LegacyWorld.TileMap.GetTileImage | src/world.py:317-342 | an animated gid shows its animated frame; otherwise no image exactly when the gid is below every firstgid, else the owner's region |
| Assets.StaticImageRelocated | src/asset_manager.py:89-90 | a `static/` image name is moved under "data/assets/tilesets/static/" |
| Assets.AnimatedImageRelocated | src/asset_manager.py:91-92 | an `animated/` image name is moved under "data/assets/tilesets/animated/" |
| Assets.ImagePathKeptOrJoined | src/asset_manager.py:93-96 | "/" and "data/" paths are kept; other relative names are joined to the tileset's directory |
| Assets.SumNonNegative | src/asset_manager.py:133 | a clip's total duration is non-negative when its durations are |
| Assets.ClipNameInjective | src/asset_manager.py:129 | different tile ids give different clip names, so no two tiles share a clip |
| Assets.ClipOf | src/asset_manager.py:121-134 | one frame per `animation` entry: its `tileid` (default 0), its duration in seconds (default 100 ms), and the total is their sum |
| Assets.LookupAfterTile | src/asset_manager.py:114-134 | one more tile replaces the clip of its id when it animates and leaves it otherwise |
| Assets.ClipsOfLookup | src/asset_manager.py:114-134 | the clip `tile_<n>` exists exactly when some tile declares an animation with id n, and it is the last such tile's |
| Assets.ClipsOfEntries | src/asset_manager.py:114-134 | every stored clip is named after an animated tile and is well formed |
| Assets.FirstAfterTile | src/asset_manager.py:129-130 | a new key goes last, so the first clip only changes when the dict was empty |
| Assets.FirstClipName | src/asset_manager.py:114-134 | the first clip of the dict belongs to the first tile that declares an animation |
| Assets.BuildClip | src/asset_manager.py:121-133 | the frame loop builds `ClipOf` |
| Assets.BuildClips | src/asset_manager.py:114-134 | the tile loop builds `ClipsOf` |
| Assets.RecordOf | src/asset_manager.py:102-111 | defaults columns 1, tilecount 1, tilewidth 16, tileheight 16, firstgid 1, and the document's tiles |
| Assets.CacheIsStable | src/asset_manager.py:72-143 | a loaded path keeps returning the same record whatever the files hold later; failures return nothing and are not cached; other entries are untouched |
| Assets.LoadedClips | src/asset_manager.py:114-138 | a freshly loaded record has the clip `tile_<n>` exactly when some tile animates id n, and all its clips are well formed |
| Assets.AnimationIn | src/asset_manager.py:150-161 | nothing without a tileset or clips; the first-inserted clip without a name; the named clip or nothing otherwise |
| Assets.FirstAnimationOfFile | src/asset_manager.py:157-158 | without a name, the clip returned is the one of the first animated tile |
| Assets.FrameRegions | src/asset_manager.py:182-197 | one region per frame id |
| Assets.FrameRegionsDistinct | src/asset_manager.py:185-190 | frames of different tiles are cut from different places |
| Assets.AnimationFrames | src/asset_manager.py:163-199 | nothing for a missing tileset; the top-left tile for one second when there is no clip; otherwise a region per frame with the clip's durations |
| Assets.CutFrames | src/asset_manager.py:182-197 | the frame loop builds `FrameRegions` |
| Assets.AssetManager.constructor | src/asset_manager.py:9-13 | the given base path and an empty cache |
| Assets.AssetManager.LoadTileset | src/asset_manager.py:68-143 | the result and the new cache are `Loaded` and `CacheAfter`; returned clips are well formed |
| Assets.AssetManager.GetAnimation | src/asset_manager.py:145-161 | loads, then answers `AnimationIn`; a clip returned is well formed |
| Assets.AssetManager.CreateAnimationFrames | src/asset_manager.py:163-199 | loads, then answers `AnimationFrames` |
| Tiled.Lookup | src/asset_manager.py:161 | `dict.get(name)` finds a stored entry exactly when one has that name |
| Tiled.Put | src/asset_manager.py:130 | `d[name] = clip`: the name now maps to clip, other names are untouched, an existing key keeps its place and a new one goes last |
| Tiled.SourceOriginInjective | src/core/world.py:192-194 | different tiles of one image start at different places |
| Tiled.SourceOriginRoundTrip | src/core/world.py:192-194 | the origin is on the tile grid and gives back `row * columns + column == id` |
| Animations.PropertyDictLast | src/components/animations.py:66-69 | a property name is in the dict exactly when some entry carries it, with the last such entry's value |
| Animations.TaggedClip | src/components/animations.py:80-88 | the tagged clip takes every frame's `tileid` and `duration / 1000` and sums them |
| Animations.DirectionalLookup | src/components/animations.py:59-89 | a clip is stored under `[direction][state]` exactly when some animated tile has both, non-empty, and it is the last such tile's |
| Animations.DirectionalWellFormed | src/components/animations.py:80-88 | every tagged clip has one duration per frame and their sum as total |
| Animations.BuildPropertyDict | src/components/animations.py:66-69 | the property loop builds `PropertyDict` |
| Animations.BuildDirectional | src/components/animations.py:59-89 | the tile loop builds `DirectionalOf` |
| Animations.Run | src/components/animations.py:119-123 | the frame stays inside the clip whatever the updates |
| Animations.RunCounts | src/components/animations.py:109-123 | after a run of updates the frame is the start frame plus the number of updates that crossed a boundary, modulo the clip length; at most one per update |
| Animations.FrameImage | src/components/animations.py:133-161 | a placeholder exactly when there is no tileset, else a tile-sized region |
| Animations.FrameImageMatchesCutFrames | src/components/animations.py:147-152 | the frame shown at step k is the k-th region the asset manager cuts for the clip |
| Animations.InitialPlayback | src/components/animations.py:39-56 | animated exactly when the clip `tile_<id>` exists, with its frames; otherwise `[tile_id]` for one second, or nothing without a tileset |
| Animations.AnimatedTile.constructor | src/components/animations.py:8-33 | loads through the cache, takes `direction`/`state` from the properties (defaults "down"/"idle"), frame 0, timer 0, `InitialPlayback` and the tagged clips |
| Animations.AnimatedTile.LoadClips | src/components/animations.py:35-89 | the loaded record, the initial playback and the tagged clips, all well formed |
| Animations.AnimatedTile.SetDirectionAndState | src/components/animations.py:91-107 | switches to a known pair only when it differs from the current one, restarting frame and timer; otherwise nothing changes |
| Animations.AnimatedTile.Play | src/components/animations.py:97-107 | the clip playing from its first frame under the new direction and state |
| Animations.AnimatedTile.Update | src/components/animations.py:109-123 | nothing when not animated; otherwise one `Advance` step |
| Animations.AnimatedTile.CurrentFrame | src/components/animations.py:125-131 | the tile id without frames, else a frame of the clip, the current one |
| Footprints.FootTablesAgreeWithHeading | src/effects/footprint.py:17-38 | each named direction's foot offset is non-zero and perpendicular to its heading, and opposite headings are drawn half a turn apart |
| Footprints.FootprintDirection | src/effects/footprint.py:153-166 | a move with both components non-zero is drawn in the diagonal of their signs; any other keeps the given direction |
| Footprints.ReachedIsDistance | src/effects/footprint.py:184-188 | the squared test is the Euclidean `distance >= step_distance` |
| Footprints.Step | src/effects/footprint.py:144-191 | a footprint is placed exactly on the first call or at step distance; when placed the position is remembered and the foot flips; the foot resets on a turn between major directions; the last direction is always updated |
| Footprints.WalkRemembersLast | src/effects/footprint.py:180-190 | after a run of calls the remembered position is the last footprint's |
| Footprints.WalkSpacing | src/effects/footprint.py:184-191 | consecutive footprints of a run are at least a step apart |
| Footprints.WalkAlternates | src/effects/footprint.py:169-191 | walking in one direction, the feet alternate, starting with the held foot |
| Footprints.SameDirectionStep | src/effects/footprint.py:169-191 | a call in the held direction uses the held foot and flips it |
| Footprints.ConsAlternates | src/effects/footprint.py:181-191 | a footprint on the other foot before an alternating run keeps it alternating |
| Footprints.FeetSymmetric | src/effects/footprint.py:79-89 | the two feet land symmetrically about the step point |
| Footprints.Alive | src/effects/footprint.py:195 | exactly the footprints with lifetime left |
| Footprints.AliveDistinct | src/effects/footprint.py:195 | filtering keeps the list free of repeats |
| Footprints.AgeAll | src/effects/footprint.py:195 | every footprint ages by dt and the kept ones are `Alive`, in order |
| Footprints.AgeNext | src/effects/footprint.py:195 | one step of the comprehension ages one footprint and extends the kept prefix |
| Footprints.DirectionOf | src/effects/footprint.py:153-166 | the diagonal detection computes `FootprintDirection` |
| Footprints.Footprint.constructor | src/effects/footprint.py:65-93 | position moved by the foot offset (negated for the left foot), rotation from the table, full lifetime |
| Footprints.Footprint.Update | src/effects/footprint.py:95-98 | lifetime drops by dt; alive exactly when some is left |
| Footprints.FootprintManager.constructor | src/effects/footprint.py:133-142 | no footprints, no remembered position or direction, left foot first |
| Footprints.FootprintManager.AddFootprint | src/effects/footprint.py:144-191 | the gait becomes `Step`'s; a footprint is appended, fresh and on the chosen foot, exactly when `Step` places one |
| Footprints.FootprintManager.Update | src/effects/footprint.py:193-195 | every footprint ages by dt and the list keeps, in order, exactly those with lifetime left |
| Movement.Axis | src/entities/player.py:110-119 | each component is in {-1, 0, 1}; opposite keys cancel |
| Movement.InputVector | src/entities/player.py:110-124 | the signs follow the keys; a diagonal scales both components to 0.7071 |
| Movement.InputVectorLength | src/entities/player.py:121-124 | every non-zero input has length one, to within 0.7071's rounding |
| Movement.Facing | src/entities/player.py:189-196 | the facing is the old one or one of the four directions |
| Movement.FacingFromKeys | src/entities/player.py:189-196 | no input keeps the facing; ties face up or down; a horizontal facing needs purely horizontal input |
| Movement.ClampAxis | src/entities/player.py:137-138 | the result lies in `[0, extent - size]`, or is 0 when the sprite is larger than the map |
| Movement.TargetWithinMap | src/entities/player.py:131-138 | with both map sizes set the target stays inside the map and an in-map step is unchanged; otherwise the step is taken as is |
| Movement.StepSize | src/entities/player.py:143 | at most one pixel, zero exactly for a zero speed |
| Movement.StepCount | src/entities/player.py:146-148 | at least one sub-step |
| Movement.StepCountCovers | src/entities/player.py:143-148 | the sub-steps cover the longer axis, and more than one never overshoots it |
| Movement.CollisionPoints | src/entities/player.py:217-244 | eight sample points |
| Movement.PointsInsideBox | src/entities/player.py:222-244 | the first four are the inset box's corners and all eight lie in the box inset by 4 px |
| Movement.AsWrittenBlocksFirstTile | src/entities/player.py:260-270 | as written, every point in the top-left tile of a non-empty map collides |
| Movement.FlatIndexCounterexample | src/entities/player.py:260-270 | a 16x16 player at the origin of an empty room collides as written but not with the grid read by cell |
| Movement.CheckCollision | src/entities/player.py:246-277 | some sample point lies in a set cell of the grid or is blocked by `is_position_collidable` |
| Movement.TrySubStep | src/entities/player.py:156-176 | no stop exactly when X and then Y are free; a blocked X reverts X and never tries Y; a blocked Y reverts Y |
| Movement.OpenStep | src/entities/player.py:156-176 | with nothing in the way a sub-step is taken in full |
| Movement.DriftClosed | src/entities/player.py:151-180 | the offsets accumulated from sub-step k on are `t * (k + ... + steps) / steps` |
| Movement.DriftingOpen | src/entities/player.py:151-180 | unobstructed, the loop as written adds the accumulated offsets to each coordinate |
| Movement.DriftingOvershoots | src/entities/player.py:151-180 | unobstructed, the loop as written moves `(steps + 1) / 2` times the target distance, so with two or more sub-steps it misses a non-zero target |
| Movement.DriftTotal | src/entities/player.py:151-180 | all offsets together are `t * (steps + 1) / 2`, which is not t for steps >= 2 and t != 0 |
| Movement.EvenOpen | src/entities/player.py:153-154 | unobstructed, the even split lands exactly on the target |
| Movement.EvenStaysOnSegment | src/entities/player.py:151-180 | obstructed or not, the even split never leaves the segment from the start to the target |
| Movement.EvenWalkStaysInMap | src/entities/player.py:135-180 | from an in-map start towards the clamped target, the even split never leaves the map |
| Movement.NowhereIsOpen | src/entities/player.py:246-277 | a map with no blocked cells and no objects blocks nothing |
| Movement.OvershootCounterexample | src/entities/player.py:135-180 | a 16-pixel player at x = 142 in a 160-pixel map, speed 2, pressing right: the clamped target 144 is split in two sub-steps; as written it ends at 145, past the edge, while the even split ends at 144 |
| Movement.Attempt | src/entities/player.py:156-176 | one pass of the loop body is `TrySubStep` with the collision check |
| Movement.SubSteps | src/entities/player.py:150-180 | the loop as written computes `DriftingWalk` |
| Movement.EvenSubSteps | src/entities/player.py:150-180 | the corrected loop, aiming each pass at the start plus `total * step / steps`, computes `EvenWalk` |
| Movement.Move | src/entities/player.py:126-186 | the position part of a tick is `Moved`: the clamped target, reached by the sub-step loop as written with a map and taken directly without; collisions are tested with the corrected cell read (`PlayerProbe`), not the flat-index broadphase |
| Movement.MovedWithoutTilemap | src/entities/player.py:181-186 | without a map the player lands on the target, inside the map when its sizes are set |
| Movement.BlockedFirstStepStops | src/entities/player.py:156-165 | when the first X sub-step hits, the player keeps its position and Y is never tried |
| Movement.Player.constructor | src/entities/player.py:8-73 | the position, the character sheet's tile size, `speed / 300`, facing down and not moving, an empty footprint trail, the sprite on tile 14 |
| Movement.Player.SetMapBoundaries | src/entities/player.py:75-80 | the new map sizes |
| Movement.Player.UpdateAnimationState | src/entities/player.py:82-87 | the sprite switches to the clip tagged with the facing and "movement" or "idle" when it has one |
| Movement.Player.Update | src/entities/player.py:89-215 | the pose becomes `Moved`, with the corrected cell read as its collision test; the facing follows the input; moving exactly when the integer position changed; a footprint is offered while moving; the trail ages; the sprite switches clip |
| Movement.Player.Reposition | src/entities/player.py:89-199 | the pose becomes `Moved`, with the corrected cell read as its collision test; the facing follows the input; moving exactly when the integer position changed |
| Movement.Player.Animate | src/entities/player.py:211-215 | the sprite plays the clip tagged with the facing and motion when it has one and keeps its clip otherwise; it stays playable |
| Movement.Player.LeaveFootprint | src/entities/player.py:201-209 | while moving the trail takes a `Step` at the bottom centre; then footprints past their lifetime are dropped |
| Movement.Player.AgeFootprints | src/entities/player.py:208-209 | the trail keeps exactly the footprints with lifetime left |
| Movement.Player.OfferFootprint | src/entities/player.py:201-206 | while moving the bottom centre is offered to the trail |
| LegacyMovement.BoxPoints | src/player.py:147-163 | eight sample points |
| LegacyMovement.InsetPointsAreBoxPoints | src/player.py:147-163 | the later player's eight points (src/entities/player.py:217-244) are this player's eight points on the box inset by 4 px on every side |
| LegacyMovement.BoxPointsInside | src/player.py:147-160 | the first four are the box corners and all eight lie in `[x, x+width-1] x [y, y+height-1]` |
| LegacyMovement.CheckPoints | src/player.py:166-174 | some sample point is blocked by `is_position_collidable` |
| LegacyMovement.SlideStaysFree | src/player.py:95-114 | from a free position the move never ends inside a wall, and each axis reaches its target or stays put |
| LegacyMovement.SlideAlongWall | src/player.py:97-114 | a blocked X never prevents Y (wall sliding), and a blocked Y keeps X |
| LegacyMovement.SlideAgreesWithSubStep | src/player.py:95-114 | where the later player's sub-step would not stop the two agree; where X is blocked the later one stops dead |
| LegacyMovement.SteppedStaysFree | src/player.py:94-114 | a player standing free on a map stays free after any input |
| LegacyMovement.SteppedWithoutTilemap | src/player.py:115-120 | without a map the clamped target is taken directly |
| LegacyMovement.Player.constructor | src/player.py:5-37 | the position, the character sheet's tile size, speed 2, facing down and not moving |
| LegacyMovement.Player.SetMapBoundaries | src/player.py:39-44 | the new map sizes |
| LegacyMovement.Player.Update | src/player.py:53-133 | the pose becomes `Stepped`; the facing follows the input; moving exactly when the integer position changed |
| LegacyMovement.Player.SlideTo | src/player.py:95-114 | X is moved, checked and reverted on a hit; then Y likewise |
| Strings.LowerIsTrue | src/components/collision.py:29 | `value.lower() == 'true'` holds exactly for the four letters in either case |
| Strings.JoinSplit | src/core/world.py:107-112 | joining the segments of a split gives the text back |
| Strings.IntToStringRoundTrip | src/core/world.py:164 | `int(str(n)) == n` |
| Strings.Basename | src/core/world.py:115 | the text after the last '/': slash-free and a suffix of the path |
| Numeric.Trunc | src/entities/player.py:158 | `int()` on a float truncates toward zero |
| Numeric.TileOf | src/components/collision.py:161-162 | `int(v // size)` is the band of width size holding v |
| Numeric.PyMod | src/core/world.py:193 | Python's `%` against its floor division |
| Numeric.TileOfWhole | src/entities/player.py:260-261 | on whole coordinates the float tile index is Python's `//` |

## Left out

- Drawing: `render`, `render_debug`, `render_to_surface`, `draw`, and every pygame surface, blit and scaling. A tile image is modelled as the tileset's image path and the region to cut.
- `AssetManager.load_image`, `Footprint.load_images` and their image caches: these only make pygame surfaces.
- `_find_base_path`: it probes the working directory; the base directory is a constructor parameter.
- `os.path.normpath` in `get_asset_path`: the path is the plain join.
- The `normpath`/`relpath` branch of `resolve_tileset_path`: it depends on the file system and the working directory, so it is the `Relocate` parameter.
- File and JSON I/O: documents arrive decoded, through the `Files` and `MapFiles` parameters, with a missing and a malformed file as separate outcomes.
- `print` output, and `debug_find_tile_in_map` in src/world.py, which only prints.
- `TileMap.update` in both maps: it calls each animated tile's `update`, which `Animations.AnimatedTile.Update` models.
- The animated tiles of src/world.py come from src/animated_tile.py, which is not part of this model. They are recorded as (tileset path, tile id).
- src/core/asset_manager.py (imported by src/core/world.py) and src/components/asset_manager.py (imported by src/effects/footprint.py) are not part of this model. The model uses the `AssetManager` of src/asset_manager.py in their place.
- The key bindings read from the configuration (src/core/config.py is not part of this model). Input is the four movement actions, each held when either of its keys is.
- The `PLAYER_SPEED` setting and its default 600 come from the configuration. The player's constructor takes the setting and divides it by 300.
- `_update_collision_points` caches the points in a field. The model computes them from the position at each check, which is where the source refreshes them.
- Aliasing of the tileset dict. The source stores the cached dict itself under the map's firstgid, then writes `firstgid`, `original_data` and `properties` into it, so the cache's copy changes too. The model keeps the cache's record as loaded. No code shown reads those keys from the cache, and a tileset loaded under two firstgids shares one `firstgid` field in the source.
- Floating-point rounding: positions, durations and lifetimes are exact reals, and the footprint distance test compares squares instead of taking `math.sqrt`.
- Collision.CollisionManager.IsPositionCollidable: requires positive tile sizes. A zero tile size makes the source's floor division (src/components/collision.py:161-162) raise `ZeroDivisionError`, which is not modelled; negative tile sizes are excluded as sizes no map file carries. The same holds for World.TileMap.IsPositionCollidable and LegacyWorld.TileMap.IsPositionCollidable.
- World.TileMap.constructor: requires that the collision layers' objects can be divided by the tile sizes (`DividesSafely`). A zero tile size with collision objects raises in the source. The same holds for LegacyWorld.TileMap.constructor and both maps' `LoadMap`.
- World.TileMap.constructor: requires `FilesReadable`. A tagged tile whose frames lack `tileid` or `duration` raises `KeyError` when an animated tile is made; such files are excluded rather than modelled as a crash. The same holds for Animations.AnimatedTile.constructor and Animations.AnimatedTile.LoadClips, which require `Readable` tiles in the tileset they load.
- World.TileMap.GetTileImage: requires a non-zero column count for the tileset it divides by. The source raises `ZeroDivisionError` there. The same holds for LegacyWorld.TileMap.GetTileImage, Assets.AssetManager.CreateAnimationFrames and Animations.AnimatedTile.FrameImageNow.
- Movement.Player.constructor: requires that the character sheet loads. On a failed load the source calls `.get` on `None` and raises.
- Movement.Player.constructor: requires `Readable` tiles in the character sheet. A tagged tile whose frames lack `tileid` or `duration` makes the sprite's directional loader raise `KeyError`; such sheets are excluded.
- LegacyMovement.Player.constructor: requires that the character sheet loads, for the same reason.
- LegacyMovement.Player.Update: does not model the `update_animation_state()` and `self.sprite.update(dt)` calls at src/player.py:135-139. The sprite of this version comes from src/animated_tile.py, which is not part of this model. The ensures covers the pose, the facing and the moving flag only.
- Collision.CollisionManager.LoadCollisionObjects: requires `DividesSafely`. A collision-layer object with a zero tile size makes the source's division raise `ZeroDivisionError`. The same holds for LegacyWorld.TileMap.LoadCollisionObjects.
- World.TileMap.IsTileCollidable: requires a collision manager. After a map that fails to load, `collision_manager` is still `None` (src/core/world.py:24, 39-41), and the delegation at src/core/world.py:79-83 raises `AttributeError`. The same holds for World.TileMap.IsPositionCollidable.
- Movement.Player.Update: tests collisions with the corrected cell read `grid[ty][tx]` (`Movement.PlayerProbe`, built on `Movement.Hits`). The source's broadphase at src/entities/player.py:264-265 reads `collision_map[tile_y * map_width + tile_x]`. So in the source, any sample point whose flat index falls below the number of non-empty rows blocks the move, for example anywhere in the top-left tile. The model does not reproduce those spurious blocks; `Movement.HitsAsWritten` and `Movement.FlatIndexCounterexample` state them on their own (see "## Findings"). The same holds for Movement.Player.Reposition, Movement.Move, Movement.SubSteps and Movement.Attempt.
- Movement.Player.Update: requires a playable sprite, whose clips have frames. With an empty clip the source's `update` raises `IndexError` at `self.durations[self.current_frame]` (src/components/animations.py:120), before the modulo at src/components/animations.py:123 is reached.
- Movement.Player.Update: requires a non-zero speed when there is a map. Otherwise `step_size` is 0 and the step count divides by zero.
- Movement.Player.Update: offers footprints and ages the trail. The ensures states the gait and which footprints survive, but not the position of a new footprint, which `FootprintManager.AddFootprint` states.
- Movement.Player.Update: states which clip the sprite plays afterwards, but not the frame and timer after the advance, which `Animations.AnimatedTile.Update` states on its own. The same holds for Movement.Player.Animate.
- LegacyWorld.TileMap.IsPositionCollidable: requires a loaded map. Before `load_map` succeeds the source has no `collision_objects` attribute and would raise `AttributeError`.
- Animations.AnimatedTile.Update: requires frames when animated. The source indexes `durations[current_frame]` and raises on an empty clip.

## Findings

| source | as written | input that shows it | evidently intended | confidence | as-written member | corrected member |
|---|---|---|---|---|---|---|
| src/entities/player.py:260-270 | the broadphase reads `collision_map[tile_y * map_width + tile_x]` as if the grid were flat. The grid is a list of rows, so the "cell" is a whole row, which is true whenever it is non-empty | a 16x16 player at (0, 0) in a room with no blocked cell and no objects: tile (0, 0) gives index 0, row 0 is non-empty, so the check reports a hit | read the cell `collision_map[tile_y][tile_x]`, so the check is "some sample point is in a set cell or blocked by an object" | not executed | Movement.FlatIndexCounterexample | Movement.CheckCollision |
| src/entities/player.py:151-180 | each sub-step aims at `old_float + total * step / steps`, but `old_float` moves to the accepted position after every pass, so unobstructed offsets accumulate to `total * (steps + 1) / 2` | a 16-pixel player at x = 142 in a 160-pixel-wide map, speed 2, pressing right: the target is clamped to 144 and split into 2 sub-steps; the player ends at 145, past the edge of the map | split the move evenly: sub-step k aims at the start plus `total * k / steps` and lands on the clamped target | not executed | Movement.OvershootCounterexample | Movement.EvenSubSteps |

The player model keeps the sub-step loop as written: `Movement.Player.Update` moves by `Movement.SubSteps`, which follows the code. The even split is proved separately:

- `Movement.EvenOpen`: unobstructed, it lands on the target.
- `Movement.EvenStaysOnSegment`: it never leaves the segment from the start to the target.
- `Movement.EvenWalkStaysInMap`: it never leaves the map.

The broadphase is modelled corrected, as the cell read, throughout, including in the player's tick; "## Left out" records this under Movement.Player.Update.
