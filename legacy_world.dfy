// The earlier tile map of src/world.py: the same loading of a map document
// and its tilesets, but with the collision grid, the collidable gids and the
// collision rectangles kept on the map itself instead of in a collision
// manager. Animated tiles are recorded as the tileset path and tile id each
// was made for: the animated tile class this version imports is not part of
// this model.

module LegacyWorld {
  import opened Wrappers
  import opened Tiled
  import opened Assets
  import opened Collision
  import opened MapLoading
  import World

  /** The image `get_tile_image` gives: the current frame of an animated tile, a piece of a tileset image, or none. */
  datatype TileImage = AnimatedFrame(path: string, tileId: int) | Piece(sheet: Sheet) | NoImage

  class TileMap {
    const mapPath: string
    const assetManager: AssetManager
    const mapDirectory: string
    var mapData: Option<MapDoc>
    var tilesetImages: map<int, TilesetRecord>
    var animatedTiles: map<int, (string, int)>
    var tileWidth: int
    var tileHeight: int
    var mapWidth: int
    var mapHeight: int
    var layers: seq<LayerDoc>
    var collisionMap: seq<seq<bool>>
    var collidableTiles: set<int>
    /** `None` until a map has been read: the attribute is only created by a successful `load_map`. */
    var collisionObjects: Option<seq<Rect>>

    /** The asset manager is valid and the grid has the map's shape. */
    ghost predicate Valid()
      reads this, assetManager
    {
      assetManager.Valid() && Shaped(collisionMap, NatOf(mapWidth), NatOf(mapHeight))
    }

    /** What the tileset loop works on: the manager's cache, the tilesets and the animated gids. */
    function State(): Loading
      reads this, assetManager
    {
      Loading(assetManager.tilesets, tilesetImages, animatedTiles)
    }

    /** The fields a point query reads. */
    function Index(): CollisionIndex
      requires collisionObjects.Some?
      reads this
    {
      CollisionIndex(tileWidth, tileHeight, mapWidth, mapHeight, collisionMap, collisionObjects.value)
    }

    /**
     * A fresh map with an empty asset manager and an empty collision state,
     * then `load_map(map_path)`.
     */
    constructor (mapPath: string, basePath: string, maps: World.MapFiles, files: Files, relocate: Relocate)
      requires var doc := World.MapAt(maps, basePath, mapPath);
        doc.Some? ==> DividesSafely(doc.value.layers.GetOr([]), doc.value.tilewidth.GetOr(16), doc.value.tileheight.GetOr(16))
      ensures Valid() && fresh(assetManager)
      ensures this.mapPath == mapPath && assetManager.basePath == basePath
      ensures mapDirectory == Strings.Dirname(AssetPath(basePath, mapPath))
      ensures mapData == World.MapAt(maps, basePath, mapPath)
      ensures mapData.None? ==>
        && tileWidth == 0 && tileHeight == 0 && mapWidth == 0 && mapHeight == 0
        && layers == [] && tilesetImages == map[] && animatedTiles == map[]
        && collisionMap == [] && collidableTiles == {} && collisionObjects.None?
      ensures mapData.Some? ==> Loads(mapData.value, Loading(map[], map[], map[]), {}, files, relocate)
    {
      this.mapPath := mapPath;
      assetManager := new AssetManager(basePath);
      mapDirectory := Strings.Dirname(AssetPath(basePath, mapPath));
      mapData := None;
      tilesetImages := map[];
      animatedTiles := map[];
      tileWidth, tileHeight, mapWidth, mapHeight := 0, 0, 0, 0;
      layers := [];
      collisionMap := [];
      collidableTiles := {};
      collisionObjects := None;
      new;
      LoadMap(World.MapAt(maps, basePath, mapPath), files, relocate);
    }

    /**
     * The state after a successful `load_map` of doc from `before`: sizes with
     * their defaults, the tilesets loaded in order, the layers, the collision
     * layers' rectangles, the collidable gids added to those already known
     * (this version never clears them), and the grid built afresh from both.
     */
    ghost predicate Loads(doc: MapDoc, before: Loading, collidableBefore: set<int>, files: Files, relocate: Relocate)
      reads this, assetManager
    {
      && tileWidth == doc.tilewidth.GetOr(16) && tileHeight == doc.tileheight.GetOr(16)
      && mapWidth == doc.width.GetOr(0) && mapHeight == doc.height.GetOr(0)
      && layers == doc.layers.GetOr([])
      && State() == LoadAll(before, doc.tilesets.GetOr([]), MapLocator(mapDirectory, relocate),
                            FileReader(assetManager.basePath, files), FileRereader(assetManager.basePath, files))
      && DividesSafely(layers, tileWidth, tileHeight)
      && collisionObjects == Some(ObjectsFrom(layers, tileWidth, tileHeight))
      && collidableTiles == collidableBefore + CollidableGids(tilesetImages)
      && collisionMap == Built(EmptyGrid(NatOf(mapWidth), NatOf(mapHeight)), layers,
                               collidableTiles, collisionObjects.value, NatOf(mapWidth), NatOf(mapHeight))
    }

    /**
     * `load_map`: a map that does not read leaves everything as it was;
     * otherwise sizes, an empty grid and rectangle list, the tilesets, the
     * layers, and then, in this order, the rectangles, the collidable gids and
     * the grid.
     */
    method LoadMap(doc: Option<MapDoc>, files: Files, relocate: Relocate)
      requires Valid()
      requires doc.Some? ==>
        DividesSafely(doc.value.layers.GetOr([]), doc.value.tilewidth.GetOr(16), doc.value.tileheight.GetOr(16))
      modifies this, assetManager`tilesets
      ensures Valid()
      ensures doc.None? ==> unchanged(this) && unchanged(assetManager)
      ensures doc.Some? ==> mapData == doc && Loads(doc.value, old(State()), old(collidableTiles), files, relocate)
    {
      if doc.None? {
        return;
      }
      mapData := doc;
      LoadDocument(doc.value, files, relocate);
    }

    /** `load_map` once the document has been read. */
    method LoadDocument(d: MapDoc, files: Files, relocate: Relocate)
      requires Valid()
      requires DividesSafely(d.layers.GetOr([]), d.tilewidth.GetOr(16), d.tileheight.GetOr(16))
      modifies this`tileWidth, this`tileHeight, this`mapWidth, this`mapHeight, this`layers
      modifies this`collisionMap, this`collisionObjects, this`collidableTiles
      modifies this`tilesetImages, this`animatedTiles, assetManager`tilesets
      ensures Valid() && Loads(d, old(State()), old(collidableTiles), files, relocate)
    {
      Prepare(d, files, relocate);
      FillCollision();
    }

    /** The start of `load_map`: sizes, an empty grid and rectangle list, the tilesets, then the layers. */
    method Prepare(d: MapDoc, files: Files, relocate: Relocate)
      requires Valid()
      modifies this`tileWidth, this`tileHeight, this`mapWidth, this`mapHeight, this`layers
      modifies this`collisionMap, this`collisionObjects
      modifies this`tilesetImages, this`animatedTiles, assetManager`tilesets
      ensures Valid()
      ensures tileWidth == d.tilewidth.GetOr(16) && tileHeight == d.tileheight.GetOr(16)
      ensures mapWidth == d.width.GetOr(0) && mapHeight == d.height.GetOr(0)
      ensures layers == d.layers.GetOr([])
      ensures State() == LoadAll(old(State()), d.tilesets.GetOr([]), MapLocator(mapDirectory, relocate),
                                 FileReader(assetManager.basePath, files), FileRereader(assetManager.basePath, files))
      ensures collisionMap == EmptyGrid(NatOf(mapWidth), NatOf(mapHeight)) && collisionObjects == Some([])
    {
      tileWidth := d.tilewidth.GetOr(16);
      tileHeight := d.tileheight.GetOr(16);
      mapWidth := d.width.GetOr(0);
      mapHeight := d.height.GetOr(0);
      collisionMap := EmptyGrid(NatOf(mapWidth), NatOf(mapHeight));
      collisionObjects := Some([]);
      LoadTilesets(d.tilesets.GetOr([]), files, relocate);
      layers := d.layers.GetOr([]);
    }

    /** The end of `load_map`: the rectangles, then the collidable gids, then the grid. */
    method FillCollision()
      requires Valid() && DividesSafely(layers, tileWidth, tileHeight)
      requires collisionMap == EmptyGrid(NatOf(mapWidth), NatOf(mapHeight)) && collisionObjects == Some([])
      modifies this`collisionObjects, this`collidableTiles, this`collisionMap
      ensures Valid()
      ensures collisionObjects == Some(ObjectsFrom(layers, tileWidth, tileHeight))
      ensures collidableTiles == old(collidableTiles) + CollidableGids(tilesetImages)
      ensures collisionMap == Built(EmptyGrid(NatOf(mapWidth), NatOf(mapHeight)), layers,
                                    collidableTiles, collisionObjects.value, NatOf(mapWidth), NatOf(mapHeight))
    {
      LoadCollisionObjects();
      assert [] + ObjectsFrom(layers, tileWidth, tileHeight) == ObjectsFrom(layers, tileWidth, tileHeight);
      IdentifyCollidableTiles();
      BuildCollisionMap();
    }

    /** The loop over the map's tileset references. */
    method LoadTilesets(refs: seq<TilesetRef>, files: Files, relocate: Relocate)
      requires Valid()
      modifies this`tilesetImages, this`animatedTiles, assetManager`tilesets
      ensures Valid()
      ensures State() == LoadAll(old(State()), refs, MapLocator(mapDirectory, relocate),
                                 FileReader(assetManager.basePath, files), FileRereader(assetManager.basePath, files))
    {
      var locate := MapLocator(mapDirectory, relocate);
      var read := FileReader(assetManager.basePath, files);
      var reread := FileRereader(assetManager.basePath, files);
      var i := 0;
      while i < |refs|
        invariant 0 <= i <= |refs|
        invariant Valid()
        invariant State() == LoadAll(old(State()), refs[..i], locate, read, reread)
      {
        LoadTileset(refs[i], files, relocate);
        assert refs[..i + 1][..i] == refs[..i];
        i := i + 1;
      }
      assert refs[..i] == refs;
    }

    /**
     * `load_tileset`: resolve the source, load it through the asset manager,
     * store it under its firstgid with the reread document, and record an
     * animated tile for every clip named `tile_<n>`.
     */
    method LoadTileset(ref: TilesetRef, files: Files, relocate: Relocate)
      requires Valid()
      modifies this`tilesetImages, this`animatedTiles, assetManager`tilesets
      ensures Valid()
      ensures State() == LoadOne(old(State()), ref, MapLocator(mapDirectory, relocate),
                                 FileReader(assetManager.basePath, files), FileRereader(assetManager.basePath, files))
    {
      if ref.source.None? {
        return;
      }
      var source := ref.source.value;
      var path := ResolveTilesetPath(source, relocate(mapDirectory, source));
      ghost var cache := assetManager.tilesets;
      FileReaderIsLoaded(cache, assetManager.basePath, path, files);
      var loaded := assetManager.LoadTileset(path, files);
      if loaded.None? {
        return;
      }
      var record := Stored(loaded.value, ref.firstgid, Reopened(assetManager.basePath, path, files));
      tilesetImages := tilesetImages[ref.firstgid := record];
      RegisterAnimated(path, ref.firstgid, loaded.value.animations);
      assert CachedLoad(cache, path, FileReader(assetManager.basePath, files)) == loaded;
    }

    /** The loop over a loaded tileset's clips: each clip named `tile_<n>` records gid `firstgid + n`. */
    method RegisterAnimated(path: string, firstgid: int, clips: seq<(string, Clip)>)
      modifies this`animatedTiles
      ensures animatedTiles == RegisterClips(old(animatedTiles), path, firstgid, clips)
    {
      var i := 0;
      while i < |clips|
        invariant 0 <= i <= |clips|
        invariant animatedTiles == RegisterClips(old(animatedTiles), path, firstgid, clips[..i])
      {
        var n := ClipTileId(clips[i].0);
        if n.Some? {
          animatedTiles := animatedTiles[firstgid + n.value := (path, n.value)];
        }
        assert clips[..i + 1][..i] == clips[..i];
        i := i + 1;
      }
      assert clips[..i] == clips;
    }

    /** `identify_collidable_tiles`: the set only grows, by exactly the tilesets' collidable gids. */
    method IdentifyCollidableTiles()
      modifies this`collidableTiles
      ensures collidableTiles == old(collidableTiles) + CollidableGids(tilesetImages)
    {
      collidableTiles := MarkCollidable(collidableTiles, tilesetImages);
    }

    /** `load_collision_objects`: appends the rectangles of the collision layers, in order. */
    method LoadCollisionObjects()
      requires collisionObjects.Some? && DividesSafely(layers, tileWidth, tileHeight)
      modifies this`collisionObjects
      ensures collisionObjects == Some(old(collisionObjects.value) + ObjectsFrom(layers, tileWidth, tileHeight))
    {
      var objects := LoadObjects(collisionObjects.value, layers, tileWidth, tileHeight);
      collisionObjects := Some(objects);
    }

    /** `build_collision_map`: sets the cells the layers and the stored rectangles mark. */
    method BuildCollisionMap()
      requires Valid() && collisionObjects.Some?
      modifies this`collisionMap
      ensures Valid()
      ensures collisionMap == Built(old(collisionMap), layers, collidableTiles, collisionObjects.value,
                                    NatOf(mapWidth), NatOf(mapHeight))
    {
      collisionMap := BuildGrid(collisionMap, layers, collidableTiles, collisionObjects.value,
                                NatOf(mapWidth), NatOf(mapHeight));
    }

    /** `is_tile_collidable`: membership, whatever the position. */
    method IsTileCollidable(gid: int) returns (r: bool)
      ensures r <==> gid in collidableTiles
    {
      r := gid in collidableTiles;
    }

    /**
     * `is_position_collidable`: the point's cell, then the rectangles. Before
     * a map has loaded the rectangle list does not exist yet.
     */
    method IsPositionCollidable(x: real, y: real) returns (r: bool)
      requires Valid() && collisionObjects.Some? && tileWidth > 0 && tileHeight > 0
      ensures r == Blocked(Index(), x, y)
    {
      r := QueryPoint(Index(), x, y);
    }

    /**
     * `get_tile_image`: an animated gid shows its tile's current frame;
     * otherwise the tileset with the largest firstgid not above the gid
     * supplies the piece; a gid below every firstgid has no image.
     */
    method GetTileImage(gid: int) returns (r: TileImage)
      requires gid !in animatedTiles ==> OwnerHasColumns(tilesetImages, gid)
      ensures gid in animatedTiles ==> r == AnimatedFrame(animatedTiles[gid].0, animatedTiles[gid].1)
      ensures gid !in animatedTiles ==> !r.AnimatedFrame?
      ensures gid !in animatedTiles ==> (r.NoImage? <==> forall k :: k in tilesetImages ==> gid < k)
      ensures r.Piece? ==> SheetFor(tilesetImages, gid, r.sheet)
    {
      if gid in animatedTiles {
        return AnimatedFrame(animatedTiles[gid].0, animatedTiles[gid].1);
      }
      var sheet := SheetLookup(tilesetImages, gid);
      r := if sheet.Some? then Piece(sheet.value) else NoImage;
    }
  }
}
