// The tile map of src/core/world.py: loading a map document, registering its
// tilesets and animated tiles, handing the collision work to a collision
// manager, and finding the image a gid is drawn with.

module World {
  import opened Wrappers
  import opened Tiled
  import opened Assets
  import opened Collision
  import opened Animations
  import opened MapLoading

  /** The map files on disk, decoded; `None` stands for a read or JSON error. */
  type MapFiles = map<string, Option<MapDoc>>

  /** What opening the map at `path` under the base directory gives. */
  function MapAt(maps: MapFiles, basePath: string, path: string): Option<MapDoc> {
    var full := AssetPath(basePath, path);
    if full in maps then maps[full] else None
  }

  /** Every tagged tile of every tileset file can be read without a missing key. */
  predicate FilesReadable(files: Files) {
    forall p :: p in files && files[p].Some? ==> Readable(files[p].value.tiles.GetOr([]))
  }

  /** A cache filled from readable files stays readable. */
  lemma CacheStaysReadable(cache: map<string, TilesetRecord>, basePath: string, path: string, files: Files)
    requires FilesReadable(files)
    requires forall p :: p in cache ==> Readable(cache[p].tiles)
    ensures var after := CacheAfter(cache, basePath, path, files);
      forall p :: p in after ==> Readable(after[p].tiles)
  {
  }

  /** The image `get_tile_image` gives: an animated tile's frame, a piece of a tileset image, or none. */
  datatype TileImage = Frame(surface: FrameSurface) | Piece(sheet: Sheet) | NoImage

  class TileMap {
    const mapPath: string
    const assetManager: AssetManager
    const mapDirectory: string
    var mapData: Option<MapDoc>
    var tilesetImages: map<int, TilesetRecord>
    var animatedTiles: map<int, AnimatedTile>
    var tileWidth: int
    var tileHeight: int
    var mapWidth: int
    var mapHeight: int
    var layers: seq<LayerDoc>
    var collisionManager: CollisionManager?

    /** The manager's cache only holds readable records, and every part is in a valid state. */
    ghost predicate Valid()
      reads this, assetManager, collisionManager, animatedTiles.Values
    {
      && assetManager.Valid()
      && (forall p :: p in assetManager.tilesets ==> Readable(assetManager.tilesets[p].tiles))
      && (forall g :: g in animatedTiles ==> animatedTiles[g].Valid())
      && (collisionManager != null ==> collisionManager.Valid())
    }

    /** The animated tiles by gid, as the tileset path and tile id each was made for. */
    function Animated(): map<int, (string, int)>
      reads this
    {
      map g | g in animatedTiles :: (animatedTiles[g].tilesetPath, animatedTiles[g].tileId)
    }

    /** What the tileset loop works on: the manager's cache, the tilesets and the animated gids. */
    function State(): Loading
      reads this, assetManager
    {
      Loading(assetManager.tilesets, tilesetImages, Animated())
    }

    /**
     * A fresh map with an empty asset manager, then `load_map(map_path)`. The
     * base directory of the assets and the directory relocation are given.
     */
    constructor (mapPath: string, basePath: string, maps: MapFiles, files: Files, relocate: Relocate)
      requires FilesReadable(files)
      requires var doc := MapAt(maps, basePath, mapPath);
        doc.Some? ==> DividesSafely(doc.value.layers.GetOr([]), doc.value.tilewidth.GetOr(16), doc.value.tileheight.GetOr(16))
      ensures Valid() && fresh(assetManager)
      ensures this.mapPath == mapPath && assetManager.basePath == basePath
      ensures mapDirectory == Strings.Dirname(AssetPath(basePath, mapPath))
      ensures mapData == MapAt(maps, basePath, mapPath)
      ensures mapData.None? ==>
        && tileWidth == 0 && tileHeight == 0 && mapWidth == 0 && mapHeight == 0
        && layers == [] && tilesetImages == map[] && animatedTiles == map[] && collisionManager == null
      ensures mapData.Some? ==> Loads(mapData.value, Loading(map[], map[], map[]), files, relocate)
    {
      this.mapPath := mapPath;
      assetManager := new AssetManager(basePath);
      mapDirectory := Strings.Dirname(AssetPath(basePath, mapPath));
      mapData := None;
      tilesetImages := map[];
      animatedTiles := map[];
      tileWidth, tileHeight, mapWidth, mapHeight := 0, 0, 0, 0;
      layers := [];
      collisionManager := null;
      new;
      LoadMap(MapAt(maps, basePath, mapPath), files, relocate);
    }

    /**
     * The state after a successful `load_map` of doc from `before`: sizes with
     * their defaults, the tilesets loaded in order, the layers, and a new
     * collision manager that holds the collision layers' objects, the
     * tilesets' collidable gids and the grid built from both.
     */
    ghost predicate Loads(doc: MapDoc, before: Loading, files: Files, relocate: Relocate)
      reads this, assetManager, collisionManager
    {
      var after := LoadAll(before, doc.tilesets.GetOr([]), MapLocator(mapDirectory, relocate),
                           FileReader(assetManager.basePath, files), FileRereader(assetManager.basePath, files));
      && tileWidth == doc.tilewidth.GetOr(16) && tileHeight == doc.tileheight.GetOr(16)
      && mapWidth == doc.width.GetOr(0) && mapHeight == doc.height.GetOr(0)
      && layers == doc.layers.GetOr([])
      && State() == after
      && collisionManager != null
      && collisionManager.tileWidth == tileWidth && collisionManager.tileHeight == tileHeight
      && collisionManager.mapWidth == mapWidth && collisionManager.mapHeight == mapHeight
      && DividesSafely(layers, tileWidth, tileHeight)
      && collisionManager.collisionObjects == ObjectsFrom(layers, tileWidth, tileHeight)
      && collisionManager.collidableTiles == CollidableGids(tilesetImages)
      && collisionManager.collisionMap == Built(EmptyGrid(NatOf(mapWidth), NatOf(mapHeight)), layers,
           collisionManager.collidableTiles, collisionManager.collisionObjects, NatOf(mapWidth), NatOf(mapHeight))
    }

    /**
     * `load_map`: a map that does not read leaves everything as it was;
     * otherwise sizes, a new collision manager, the tilesets, the layers, and
     * then, in this order, the collision objects, the collidable gids and the
     * grid.
     */
    method LoadMap(doc: Option<MapDoc>, files: Files, relocate: Relocate)
      requires Valid() && FilesReadable(files)
      requires doc.Some? ==>
        DividesSafely(doc.value.layers.GetOr([]), doc.value.tilewidth.GetOr(16), doc.value.tileheight.GetOr(16))
      modifies this, assetManager`tilesets
      ensures Valid()
      ensures doc.None? ==> unchanged(this) && unchanged(assetManager)
      ensures doc.Some? ==> mapData == doc && fresh(collisionManager) && Loads(doc.value, old(State()), files, relocate)
    {
      if doc.None? {
        return;
      }
      mapData := doc;
      LoadDocument(doc.value, files, relocate);
    }

    /** `load_map` once the document has been read. */
    method LoadDocument(d: MapDoc, files: Files, relocate: Relocate)
      requires Valid() && FilesReadable(files)
      requires DividesSafely(d.layers.GetOr([]), d.tilewidth.GetOr(16), d.tileheight.GetOr(16))
      modifies this`tileWidth, this`tileHeight, this`mapWidth, this`mapHeight, this`layers, this`collisionManager
      modifies this`tilesetImages, this`animatedTiles, assetManager`tilesets
      ensures Valid() && fresh(collisionManager) && Loads(d, old(State()), files, relocate)
    {
      var manager := Prepare(d, files, relocate);
      FillCollision(manager);
    }

    /** The start of `load_map`: sizes, a new collision manager, the tilesets, then the layers. */
    method Prepare(d: MapDoc, files: Files, relocate: Relocate) returns (manager: CollisionManager)
      requires Valid() && FilesReadable(files)
      modifies this`tileWidth, this`tileHeight, this`mapWidth, this`mapHeight, this`layers, this`collisionManager
      modifies this`tilesetImages, this`animatedTiles, assetManager`tilesets
      ensures Valid() && fresh(manager) && collisionManager == manager
      ensures tileWidth == d.tilewidth.GetOr(16) && tileHeight == d.tileheight.GetOr(16)
      ensures mapWidth == d.width.GetOr(0) && mapHeight == d.height.GetOr(0)
      ensures layers == d.layers.GetOr([])
      ensures State() == LoadAll(old(State()), d.tilesets.GetOr([]), MapLocator(mapDirectory, relocate),
                                 FileReader(assetManager.basePath, files), FileRereader(assetManager.basePath, files))
      ensures manager.tileWidth == tileWidth && manager.tileHeight == tileHeight
      ensures manager.mapWidth == mapWidth && manager.mapHeight == mapHeight
      ensures manager.collisionMap == EmptyGrid(NatOf(mapWidth), NatOf(mapHeight))
      ensures manager.collidableTiles == {} && manager.collisionObjects == []
    {
      tileWidth := d.tilewidth.GetOr(16);
      tileHeight := d.tileheight.GetOr(16);
      mapWidth := d.width.GetOr(0);
      mapHeight := d.height.GetOr(0);
      manager := new CollisionManager(tileWidth, tileHeight, mapWidth, mapHeight);
      collisionManager := manager;
      LoadTilesets(d.tilesets.GetOr([]), files, relocate);
      layers := d.layers.GetOr([]);
    }

    /** The end of `load_map`: the collision objects, then the collidable gids, then the grid. */
    method FillCollision(manager: CollisionManager)
      requires Valid() && collisionManager == manager
      requires DividesSafely(layers, tileWidth, tileHeight)
      requires manager.tileWidth == tileWidth && manager.tileHeight == tileHeight
      requires manager.mapWidth == mapWidth && manager.mapHeight == mapHeight
      requires manager.collisionMap == EmptyGrid(NatOf(mapWidth), NatOf(mapHeight))
      requires manager.collidableTiles == {} && manager.collisionObjects == []
      modifies manager`collisionObjects, manager`collidableTiles, manager`collisionMap
      ensures Valid()
      ensures manager.collisionObjects == ObjectsFrom(layers, tileWidth, tileHeight)
      ensures manager.collidableTiles == CollidableGids(tilesetImages)
      ensures manager.collisionMap == Built(EmptyGrid(NatOf(mapWidth), NatOf(mapHeight)), layers,
        manager.collidableTiles, manager.collisionObjects, NatOf(mapWidth), NatOf(mapHeight))
    {
      manager.LoadCollisionObjects(layers, tileWidth, tileHeight);
      manager.IdentifyCollidableTiles(tilesetImages);
      manager.BuildCollisionMap(layers);
    }

    /** The loop over the map's tileset references. */
    method LoadTilesets(refs: seq<TilesetRef>, files: Files, relocate: Relocate)
      requires Valid() && FilesReadable(files)
      modifies this`tilesetImages, this`animatedTiles, assetManager`tilesets
      ensures Valid()
      ensures State() == LoadAll(old(State()), refs, MapLocator(mapDirectory, relocate),
                                 FileReader(assetManager.basePath, files), FileRereader(assetManager.basePath, files))
    {
      var locate := MapLocator(mapDirectory, relocate);
      var read := FileReader(assetManager.basePath, files);
      var reread := FileRereader(assetManager.basePath, files);
      var i := 0;
      while i < |refs|
        invariant 0 <= i <= |refs|
        invariant Valid()
        invariant State() == LoadAll(old(State()), refs[..i], locate, read, reread)
      {
        LoadTileset(refs[i], files, relocate);
        assert refs[..i + 1][..i] == refs[..i];
        i := i + 1;
      }
      assert refs[..i] == refs;
    }

    /**
     * `load_tileset`: resolve the source, load it through the asset manager,
     * store it under its firstgid with the reread document, and make an
     * animated tile for every clip named `tile_<n>`.
     */
    method LoadTileset(ref: TilesetRef, files: Files, relocate: Relocate)
      requires Valid() && FilesReadable(files)
      modifies this`tilesetImages, this`animatedTiles, assetManager`tilesets
      ensures Valid()
      ensures State() == LoadOne(old(State()), ref, MapLocator(mapDirectory, relocate),
                                 FileReader(assetManager.basePath, files), FileRereader(assetManager.basePath, files))
    {
      if ref.source.None? {
        return;
      }
      var source := ref.source.value;
      var path := ResolveTilesetPath(source, relocate(mapDirectory, source));
      ghost var cache := assetManager.tilesets;
      FileReaderIsLoaded(cache, assetManager.basePath, path, files);
      CacheStaysReadable(cache, assetManager.basePath, path, files);
      var loaded := assetManager.LoadTileset(path, files);
      if loaded.None? {
        return;
      }
      CacheIsStable(cache, assetManager.basePath, path, files, files);
      var record := Stored(loaded.value, ref.firstgid, Reopened(assetManager.basePath, path, files));
      tilesetImages := tilesetImages[ref.firstgid := record];
      MakeAnimatedTiles(path, ref.firstgid, loaded.value.animations, files);
      assert ref.source.value == source;
      assert CachedLoad(cache, path, FileReader(assetManager.basePath, files)) == loaded;
    }

    /** The loop over a loaded tileset's clips: an animated tile for each clip named `tile_<n>`. */
    method MakeAnimatedTiles(path: string, firstgid: int, clips: seq<(string, Clip)>, files: Files)
      requires Valid() && path in assetManager.tilesets
      modifies this`animatedTiles, assetManager`tilesets
      ensures Valid() && assetManager.tilesets == old(assetManager.tilesets)
      ensures Animated() == RegisterClips(old(Animated()), path, firstgid, clips)
    {
      ghost var before := Animated();
      var i := 0;
      while i < |clips|
        invariant 0 <= i <= |clips|
        invariant Valid() && assetManager.tilesets == old(assetManager.tilesets)
        invariant Animated() == RegisterClips(before, path, firstgid, clips[..i])
      {
        var n := ClipTileId(clips[i].0);
        if n.Some? {
          AddAnimatedTile(firstgid + n.value, path, n.value, files);
        }
        assert clips[..i + 1][..i] == clips[..i];
        i := i + 1;
      }
      assert clips[..i] == clips;
    }

    /** `animated_tiles[gid] = AnimatedTile(asset_manager, path, tile_id)` for an already loaded path. */
    method AddAnimatedTile(gid: int, path: string, tileId: int, files: Files)
      requires Valid() && path in assetManager.tilesets
      modifies this`animatedTiles, assetManager`tilesets
      ensures Valid() && assetManager.tilesets == old(assetManager.tilesets)
      ensures Animated() == old(Animated())[gid := (path, tileId)]
    {
      var tile := new AnimatedTile(assetManager, path, tileId, map[], files);
      animatedTiles := animatedTiles[gid := tile];
    }

    /** `is_tile_collidable`, handed to the collision manager (a failed load has none). */
    method IsTileCollidable(gid: int) returns (r: bool)
      requires collisionManager != null
      ensures r <==> gid in collisionManager.collidableTiles
    {
      r := collisionManager.IsTileCollidable(gid);
    }

    /** `is_position_collidable`, handed to the collision manager. */
    method IsPositionCollidable(x: real, y: real) returns (r: bool)
      requires Valid() && collisionManager != null
      requires collisionManager.tileWidth > 0 && collisionManager.tileHeight > 0
      ensures r == Blocked(collisionManager.Index(), x, y)
    {
      r := collisionManager.IsPositionCollidable(x, y);
    }

    /**
     * `get_tile_image`: an animated gid shows its tile's current frame;
     * otherwise the tileset with the largest firstgid not above the gid
     * supplies the piece; a gid below every firstgid has no image.
     */
    method GetTileImage(gid: int) returns (r: TileImage)
      requires Valid()
      requires gid in animatedTiles ==>
        var t := animatedTiles[gid]; t.tilesetData.Some? ==> t.tilesetData.value.columns != 0
      requires gid !in animatedTiles ==> OwnerHasColumns(tilesetImages, gid)
      ensures gid in animatedTiles ==> r == Frame(animatedTiles[gid].FrameImageNow())
      ensures gid !in animatedTiles ==> !r.Frame?
      ensures gid !in animatedTiles ==> (r.NoImage? <==> forall k :: k in tilesetImages ==> gid < k)
      ensures r.Piece? ==> SheetFor(tilesetImages, gid, r.sheet)
    {
      if gid in animatedTiles {
        return Frame(animatedTiles[gid].FrameImageNow());
      }
      var sheet := SheetLookup(tilesetImages, gid);
      r := if sheet.Some? then Piece(sheet.value) else NoImage;
    }
  }
}
