/**
 * Tileset bookkeeping shared by the tile map of src/core/world.py and its
 * older copy in src/world.py: resolving a map's tileset reference to an asset
 * path, storing loaded tilesets by `firstgid`, registering animated tiles at
 * `firstgid + n` for clips named `tile_<n>`, and finding the tileset that
 * draws a gid.
 */
module MapLoading {
  import opened Wrappers
  import opened Strings
  import opened Numeric
  import opened Tiled
  import opened Assets

  // ------------------------------------------------ tileset paths

  /**
   * `os.path.relpath(os.path.normpath(os.path.join(map_directory, source)), base_path)`
   * when the normalised path lies under the base directory, for a given map
   * directory and source; `None` when it does not. Path normalisation is
   * taken as given.
   */
  type Relocate = (string, string) -> Option<string>

  const AssetsDir: string := "data/assets/"
  const TilesetsDir: string := "data/assets/tilesets/"

  /** A path used as it is: absolute, or already under `data/`. */
  predicate ProjectPath(p: string) {
    StartsWith(p, "/") || StartsWith(p, "data/")
  }

  /** `parts.index(s)`: the first position holding s. */
  function FirstIndex(parts: seq<string>, s: string): (i: int)
    requires s in parts
    ensures 0 <= i < |parts| && parts[i] == s
    ensures forall j :: 0 <= j < i ==> parts[j] != s
  {
    if parts[0] == s then 0 else 1 + FirstIndex(parts[1..], s)
  }

  /** The source holds a `../` and a path segment named `tilesets`. */
  predicate HasTilesetsSegment(source: string) {
    Contains(source, "../") && "tilesets" in Split(source, '/')
  }

  /** The source's segments from the first `tilesets` on, joined by '/'. */
  function TilesetsTail(source: string): string
    requires "tilesets" in Split(source, '/')
  {
    var parts := Split(source, '/');
    Join(parts[FirstIndex(parts, "tilesets")..], '/')
  }

  /**
   * `resolve_tileset_path`: a project path is kept; otherwise the relocated
   * path when there is one; otherwise a `../` path with a `tilesets` segment
   * is rebuilt under `data/assets/`; anything else falls back to its base
   * name under `data/assets/tilesets/`.
   */
  function ResolveTilesetPath(source: string, relocated: Option<string>): (r: string)
    ensures ProjectPath(source) ==> r == source
    ensures !ProjectPath(source) && relocated.Some? ==> r == relocated.value
    ensures relocated.None? ==> ProjectPath(r)
    ensures !ProjectPath(source) && relocated.None? && HasTilesetsSegment(source) ==> r == AssetsDir + TilesetsTail(source)
    ensures !ProjectPath(source) && relocated.None? && !HasTilesetsSegment(source) ==> r == TilesetsDir + Basename(source)
  {
    if ProjectPath(source) then source
    else if relocated.Some? then relocated.value
    else if HasTilesetsSegment(source) then AssetsDir + TilesetsTail(source)
    else TilesetsDir + Basename(source)
  }

  /** A join of segments starts with the first segment. */
  lemma JoinStartsWithFirst(parts: seq<string>, sep: char)
    requires |parts| >= 1
    ensures StartsWith(Join(parts, sep), parts[0])
  {
  }

  /**
   * The rebuilt tail is the source's own text from a segment boundary on,
   * and it starts with `tilesets`: nothing before that segment survives.
   */
  lemma TilesetsTailIsSuffix(source: string)
    requires "tilesets" in Split(source, '/')
    ensures StartsWith(TilesetsTail(source), "tilesets")
    ensures exists head :: source == head + TilesetsTail(source) && (head == [] || head[|head| - 1] == '/')
  {
    var parts := Split(source, '/');
    var k := FirstIndex(parts, "tilesets");
    var tail := TilesetsTail(source);
    JoinSplit(source, '/');
    JoinStartsWithFirst(parts[k..], '/');
    if k == 0 {
      assert parts[k..] == parts;
      assert source == [] + tail;
    } else {
      JoinTail(parts, '/', k);
      var head := Join(parts[..k], '/') + ['/'];
      assert source == head + tail;
    }
  }

  /**
   * The fallback keeps only the base name: the result is `data/assets/tilesets/`
   * followed by a slash-free suffix of the source.
   */
  lemma FallbackKeepsBasename(source: string)
    requires !ProjectPath(source) && !HasTilesetsSegment(source)
    ensures var r := ResolveTilesetPath(source, None);
      && StartsWith(r, TilesetsDir)
      && '/' !in r[|TilesetsDir|..]
      && EndsWith(source, r[|TilesetsDir|..])
  {
    var r := ResolveTilesetPath(source, None);
    assert r[|TilesetsDir|..] == Basename(source);
  }

  /**
   * Resolving settles: a path resolved without relocation (or kept as it was)
   * resolves to itself again, whatever relocation is on offer the second time.
   */
  lemma ResolveSettles(source: string, relocated: Option<string>, again: Option<string>)
    requires relocated.None? || ProjectPath(source)
    ensures var r := ResolveTilesetPath(source, relocated);
      ResolveTilesetPath(r, again) == r
  {
  }

  // ------------------------------------------------ animated gids

  /** A string that holds the separator splits into at least two pieces. */
  lemma {:induction false} SplitAtSeparator(s: string, sep: char)
    requires sep in s
    ensures |Split(s, sep)| >= 2
    decreases |s|
  {
    if s[0] != sep {
      assert sep in s[1..] by {
        var i :| 0 <= i < |s| && s[i] == sep;
        assert s[1..][i - 1] == sep;
      }
      SplitAtSeparator(s[1..], sep);
    }
  }

  /**
   * The tile id in a clip name: `int(name.split("_")[1])` for a name starting
   * `tile_`; `None` for other names and when that piece is not an integer
   * (the `ValueError` the loader swallows).
   */
  function ClipTileId(name: string): (n: Option<int>)
    ensures !StartsWith(name, "tile_") ==> n.None?
  {
    if StartsWith(name, "tile_") then
      assert name[4] == '_';
      SplitAtSeparator(name, '_');
      ParseInt(Split(name, '_')[1])
    else None
  }

  /** The decimal text of an integer holds no underscore. */
  lemma NoUnderscoreInNumber(n: int)
    ensures '_' !in IntToString(n)
  {
    var m: nat := if n < 0 then -n else n;
    assert AllDigits(NatToString(m));
    if n < 0 {
      assert IntToString(n) == "-" + NatToString(m);
      assert forall i :: 0 <= i < |IntToString(n)| ==> IntToString(n)[i] == '-' || IsDigit(IntToString(n)[i]);
    }
  }

  /** Every clip name the asset manager writes, `tile_<n>`, registers at tile id n. */
  lemma ClipNameRegisters(n: int)
    ensures ClipTileId(ClipName(n)) == Some(n)
  {
    var digits := IntToString(n);
    NoUnderscoreInNumber(n);
    assert ClipName(n) == "tile" + ['_'] + digits;
    SplitAround("tile", digits, '_');
    IntToStringRoundTrip(n);
  }

  /**
   * The loop over a tileset's clips: each clip whose name carries a tile id n
   * registers (path, n) at gid `firstgid + n`; a later clip for the same gid
   * replaces an earlier one.
   */
  function RegisterClips(animated: map<int, (string, int)>, path: string, firstgid: int,
                         clips: seq<(string, Clip)>): map<int, (string, int)>
  {
    if clips == [] then animated
    else
      var before := RegisterClips(animated, path, firstgid, clips[..|clips| - 1]);
      match ClipTileId(clips[|clips| - 1].0)
      case Some(n) => before[firstgid + n := (path, n)]
      case None => before
  }

  /** Some clip of the list is named after tile n. */
  predicate NamesTile(clips: seq<(string, Clip)>, n: int) {
    exists i :: 0 <= i < |clips| && ClipTileId(clips[i].0) == Some(n)
  }

  /**
   * A gid is registered exactly when it was already, or some clip names tile
   * `gid - firstgid`; a newly registered gid holds (path, gid - firstgid), and
   * other gids keep what they held.
   */
  lemma {:induction false} RegisterClipsMembers(animated: map<int, (string, int)>, path: string, firstgid: int,
                                                clips: seq<(string, Clip)>, g: int)
    ensures var r := RegisterClips(animated, path, firstgid, clips);
      && (g in r <==> g in animated || NamesTile(clips, g - firstgid))
      && (NamesTile(clips, g - firstgid) ==> r[g] == (path, g - firstgid))
      && (!NamesTile(clips, g - firstgid) && g in animated ==> r[g] == animated[g])
  {
    if clips != [] {
      var front := clips[..|clips| - 1];
      var last := clips[|clips| - 1];
      RegisterClipsMembers(animated, path, firstgid, front, g);
      assert NamesTile(front, g - firstgid) ==> NamesTile(clips, g - firstgid) by {
        if NamesTile(front, g - firstgid) {
          var i :| 0 <= i < |front| && ClipTileId(front[i].0) == Some(g - firstgid);
          assert clips[i] == front[i];
        }
      }
    }
  }

  /**
   * For a record parsed from a tileset file, gid g is registered exactly when
   * some tile of the file declares an animation with id `g - firstgid`.
   */
  lemma ParsedClipsRegister(doc: TilesetDoc, image: string, path: string, firstgid: int, g: int)
    ensures var tiles := doc.tiles.GetOr([]);
      g in RegisterClips(map[], path, firstgid, RecordOf(doc, image).animations)
      <==> exists i :: 0 <= i < |tiles| && Animates(tiles[i], g - firstgid)
  {
    var tiles := doc.tiles.GetOr([]);
    var clips := RecordOf(doc, image).animations;
    var n := g - firstgid;
    RegisterClipsMembers(map[], path, firstgid, clips, g);
    ClipsOfLookup(tiles, n);
    ClipsOfEntries(tiles);
    if NamesTile(clips, n) {
      var i :| 0 <= i < |clips| && ClipTileId(clips[i].0) == Some(n);
      assert clips[i] in clips;
      var j :| 0 <= j < |tiles| && tiles[j].animation.Some? && clips[i].0 == ClipName(tiles[j].id.GetOr(0));
      ClipNameRegisters(tiles[j].id.GetOr(0));
      assert Animates(tiles[j], n);
    }
    if exists i :: 0 <= i < |tiles| && Animates(tiles[i], n) {
      var c := Lookup(clips, ClipName(n));
      var i :| 0 <= i < |clips| && clips[i].0 == ClipName(n);
      ClipNameRegisters(n);
      assert ClipTileId(clips[i].0) == Some(n);
    }
  }

  // ------------------------------------------------ registering tilesets

  /** What loading the tileset at an asset path gives when the cache misses. */
  type Reader = string -> Option<TilesetRecord>

  /** What reopening the tileset file at an asset path gives. */
  type Rereader = string -> Option<TilesetDoc>

  /** The asset path a reference's `source` resolves to. */
  type Locator = string -> string

  /** Reading through the asset manager's files. */
  function FileReader(basePath: string, files: Files): (read: Reader)
  {
    path => ReadTileset(basePath, path, files)
  }

  /** Reopening a tileset file: its document, or `None` on a read error. */
  function Reopened(basePath: string, path: string, files: Files): Option<TilesetDoc> {
    var full := AssetPath(basePath, path);
    if full in files then files[full] else None
  }

  /** Reopening the file itself. */
  function FileRereader(basePath: string, files: Files): (reread: Rereader)
  {
    path => Reopened(basePath, path, files)
  }

  /** `resolve_tileset_path` from the map's directory. */
  function MapLocator(mapDirectory: string, relocate: Relocate): (locate: Locator)
  {
    source => ResolveTilesetPath(source, relocate(mapDirectory, source))
  }

  /** `load_tileset(path)` against a cache: a hit answers from the cache. */
  function CachedLoad(cache: map<string, TilesetRecord>, path: string, read: Reader): Option<TilesetRecord> {
    if path in cache then Some(cache[path]) else read(path)
  }

  /** The cache after `load_tileset(path)`: only a successful read is stored. */
  function CacheWith(cache: map<string, TilesetRecord>, path: string, read: Reader): map<string, TilesetRecord> {
    if path in cache then cache
    else
      match read(path)
      case Some(r) => cache[path := r]
      case None => cache
  }

  /** The cache functions above are the asset manager's, read through its files. */
  lemma FileReaderIsLoaded(cache: map<string, TilesetRecord>, basePath: string, path: string, files: Files)
    ensures CachedLoad(cache, path, FileReader(basePath, files)) == Loaded(cache, basePath, path, files)
    ensures CacheWith(cache, path, FileReader(basePath, files)) == CacheAfter(cache, basePath, path, files)
  {
  }

  /**
   * The record stored for a map's tileset: the loaded record with the map's
   * `firstgid` and, when the file reads again, its document as `original_data`
   * and its `properties` when it has them.
   */
  function Stored(record: TilesetRecord, firstgid: int, reread: Option<TilesetDoc>): (r: TilesetRecord)
    ensures r.firstgid == firstgid && r.originalData == (if reread.Some? then reread else record.originalData)
    ensures r.properties == (if reread.Some? && reread.value.properties.Some? then reread.value.properties else record.properties)
    ensures r.(firstgid := record.firstgid, originalData := record.originalData, properties := record.properties) == record
  {
    match reread
    case None => record.(firstgid := firstgid)
    case Some(doc) =>
      record.(firstgid := firstgid, originalData := Some(doc),
              properties := if doc.properties.Some? then doc.properties else record.properties)
  }

  /** The asset manager's cache, the tilesets by firstgid, and the animated gids as (path, tile id). */
  datatype Loading = Loading(cache: map<string, TilesetRecord>, images: map<int, TilesetRecord>,
                             animated: map<int, (string, int)>)

  /**
   * `load_tileset(tileset)`: a reference without `source` is skipped; one whose
   * file does not load leaves everything as it was; otherwise the record is
   * stored under `firstgid` and its clips register animated gids.
   */
  function LoadOne(s: Loading, ref: TilesetRef, locate: Locator, read: Reader, reread: Rereader): Loading {
    if ref.source.None? then s
    else
      var path := locate(ref.source.value);
      match CachedLoad(s.cache, path, read)
      case None => s
      case Some(record) =>
        Loading(CacheWith(s.cache, path, read),
                s.images[ref.firstgid := Stored(record, ref.firstgid, reread(path))],
                RegisterClips(s.animated, path, ref.firstgid, record.animations))
  }

  /** The tileset references of a map, loaded in order. */
  function LoadAll(s: Loading, refs: seq<TilesetRef>, locate: Locator, read: Reader, reread: Rereader): Loading {
    if refs == [] then s
    else LoadOne(LoadAll(s, refs[..|refs| - 1], locate, read, reread), refs[|refs| - 1], locate, read, reread)
  }

  /** Every cached record is what reading its path gives: the cache then changes no answer. */
  predicate Agrees(cache: map<string, TilesetRecord>, read: Reader) {
    forall p :: p in cache ==> read(p) == Some(cache[p])
  }

  /** The record a reference stores, read straight from the files. */
  function Fetched(ref: TilesetRef, locate: Locator, read: Reader, reread: Rereader): Option<TilesetRecord> {
    if ref.source.None? then None
    else
      var path := locate(ref.source.value);
      match read(path)
      case None => None
      case Some(record) => Some(Stored(record, ref.firstgid, reread(path)))
  }

  /** One reference stores its record under its firstgid when it loads, and changes no other firstgid. */
  lemma LoadOneImages(s: Loading, ref: TilesetRef, locate: Locator, read: Reader, reread: Rereader, firstgid: int)
    requires Agrees(s.cache, read)
    ensures var r := LoadOne(s, ref, locate, read, reread);
      var f := Fetched(ref, locate, read, reread);
      && Agrees(r.cache, read)
      && (firstgid in r.images <==> firstgid in s.images || (ref.firstgid == firstgid && f.Some?))
      && (ref.firstgid == firstgid && f.Some? ==> r.images[firstgid] == f.value)
      && (!(ref.firstgid == firstgid && f.Some?) && firstgid in s.images ==> r.images[firstgid] == s.images[firstgid])
  {
  }

  /** Some reference with this firstgid loads. */
  predicate SomeFetched(refs: seq<TilesetRef>, locate: Locator, read: Reader, reread: Rereader, firstgid: int) {
    exists i :: 0 <= i < |refs| && refs[i].firstgid == firstgid && Fetched(refs[i], locate, read, reread).Some?
  }

  /** Reference i is the last one with this firstgid whose tileset loads. */
  predicate LastFetched(refs: seq<TilesetRef>, locate: Locator, read: Reader, reread: Rereader, firstgid: int, i: int) {
    && 0 <= i < |refs| && refs[i].firstgid == firstgid
    && Fetched(refs[i], locate, read, reread).Some?
    && forall j :: i < j < |refs| && refs[j].firstgid == firstgid ==> Fetched(refs[j], locate, read, reread).None?
  }

  /**
   * Loading a map's references from an agreeing cache: a firstgid is stored
   * exactly when it was already or some reference with a `source` and that
   * firstgid loads.
   */
  lemma {:induction false} LoadAllImages(s: Loading, refs: seq<TilesetRef>, locate: Locator, read: Reader,
                                         reread: Rereader, firstgid: int)
    requires Agrees(s.cache, read)
    ensures var r := LoadAll(s, refs, locate, read, reread);
      && Agrees(r.cache, read)
      && (firstgid in r.images <==> firstgid in s.images || SomeFetched(refs, locate, read, reread, firstgid))
      && (!SomeFetched(refs, locate, read, reread, firstgid) && firstgid in s.images ==>
            r.images[firstgid] == s.images[firstgid])
    decreases |refs|
  {
    if refs != [] {
      var front := refs[..|refs| - 1];
      var last := refs[|refs| - 1];
      var mid := LoadAll(s, front, locate, read, reread);
      LoadAllImages(s, front, locate, read, reread, firstgid);
      LoadOneImages(mid, last, locate, read, reread, firstgid);
      if SomeFetched(front, locate, read, reread, firstgid) {
        var i :| 0 <= i < |front| && front[i].firstgid == firstgid && Fetched(front[i], locate, read, reread).Some?;
        assert refs[i] == front[i];
      }
      if SomeFetched(refs, locate, read, reread, firstgid) {
        var i :| 0 <= i < |refs| && refs[i].firstgid == firstgid && Fetched(refs[i], locate, read, reread).Some?;
        if i < |front| {
          assert front[i] == refs[i];
        }
      }
    }
  }

  /** A later reference with the same firstgid overwrites: the last one that loads is what is stored. */
  lemma {:induction false} LoadAllLastWins(s: Loading, refs: seq<TilesetRef>, locate: Locator, read: Reader,
                                           reread: Rereader, firstgid: int, i: int)
    requires Agrees(s.cache, read)
    requires LastFetched(refs, locate, read, reread, firstgid, i)
    ensures var r := LoadAll(s, refs, locate, read, reread);
      firstgid in r.images && r.images[firstgid] == Fetched(refs[i], locate, read, reread).value
    decreases |refs|
  {
    var front := refs[..|refs| - 1];
    var last := refs[|refs| - 1];
    var mid := LoadAll(s, front, locate, read, reread);
    LoadAllImages(s, front, locate, read, reread, firstgid);
    LoadOneImages(mid, last, locate, read, reread, firstgid);
    if i < |front| {
      assert front[i] == refs[i];
      assert LastFetched(front, locate, read, reread, firstgid, i) by {
        forall j | i < j < |front| && front[j].firstgid == firstgid
          ensures Fetched(front[j], locate, read, reread).None?
        {
          assert front[j] == refs[j];
        }
      }
      LoadAllLastWins(s, front, locate, read, reread, firstgid, i);
    }
  }

  // ------------------------------------------------ gid lookup

  /** fg is the largest firstgid not above gid: the first hit of the descending scan. */
  predicate IsOwner(firstgids: set<int>, gid: int, fg: int) {
    fg in firstgids && fg <= gid && forall k :: k in firstgids && k <= gid ==> k <= fg
  }

  /** A gid has at most one owning tileset. */
  lemma OwnerUnique(firstgids: set<int>, gid: int, a: int, b: int)
    requires IsOwner(firstgids, gid, a) && IsOwner(firstgids, gid, b)
    ensures a == b
  {
  }

  /** The region of the tileset image that holds local tile `local`. */
  function TileRegion(record: TilesetRecord, local: int): Region
    requires record.columns != 0
  {
    var (x, y) := SourceOrigin(local, record.columns, record.tilewidth, record.tileheight);
    Region(x, y, record.tilewidth, record.tileheight)
  }

  /** The tileset that draws a gid, its image, and the region the tile is cut from. */
  datatype Sheet = Sheet(firstgid: int, image: string, region: Region)

  /** s is what the lookup gives for gid: the owner's image and the local tile's region. */
  predicate SheetFor(images: map<int, TilesetRecord>, gid: int, s: Sheet) {
    && IsOwner(images.Keys, gid, s.firstgid)
    && images[s.firstgid].columns != 0
    && s.image == images[s.firstgid].image
    && s.region == TileRegion(images[s.firstgid], gid - s.firstgid)
  }

  /** The owner divides by its column count; no other tileset is read. */
  predicate OwnerHasColumns(images: map<int, TilesetRecord>, gid: int) {
    forall fg :: fg in images && IsOwner(images.Keys, gid, fg) ==> images[fg].columns != 0
  }

  /** `max` of a non-empty set of firstgids, by a scan. */
  method Largest(s: set<int>) returns (m: int)
    requires s != {}
    ensures m in s && forall k :: k in s ==> k <= m
  {
    m := PickKey(s);
    var rest := s - {m};
    while rest != {}
      invariant m in s && rest <= s
      invariant forall k :: k in s && k !in rest ==> k <= m
      decreases |rest|
    {
      var k := PickKey(rest);
      if k > m {
        m := k;
      }
      rest := rest - {k};
    }
  }

  /**
   * The tileset part of `get_tile_image`: firstgids in descending order, the
   * first one not above gid draws it; none when gid is below every firstgid.
   */
  method SheetLookup(images: map<int, TilesetRecord>, gid: int) returns (r: Option<Sheet>)
    requires OwnerHasColumns(images, gid)
    ensures r.None? <==> forall k :: k in images ==> gid < k
    ensures r.Some? ==> SheetFor(images, gid, r.value)
  {
    var remaining := images.Keys;
    while remaining != {}
      invariant remaining <= images.Keys
      invariant forall k :: k in images && k !in remaining ==> gid < k
      decreases |remaining|
    {
      var firstgid := Largest(remaining);
      if gid >= firstgid {
        var tileset := images[firstgid];
        var localId := gid - firstgid;
        var columns := tileset.columns;
        var tileX := PyMod(localId, columns) * tileset.tilewidth;
        var tileY := FloorDiv(localId, columns) * tileset.tileheight;
        return Some(Sheet(firstgid, tileset.image, Region(tileX, tileY, tileset.tilewidth, tileset.tileheight)));
      }
      remaining := remaining - {firstgid};
    }
    return None;
  }

  /**
   * Within the owning tileset the region gives the gid back: its column and
   * row, read off the region's origin, number the local tile `gid - firstgid`.
   */
  lemma SheetRecoversGid(images: map<int, TilesetRecord>, gid: int, s: Sheet)
    requires SheetFor(images, gid, s)
    requires images[s.firstgid].columns > 0 && s.region.width > 0 && s.region.height > 0
    ensures s.firstgid + (s.region.y / s.region.height) * images[s.firstgid].columns
              + s.region.x / s.region.width == gid
  {
    var t := images[s.firstgid];
    SourceOriginRoundTrip(gid - s.firstgid, t.columns, t.tilewidth, t.tileheight);
  }

  /** Two gids drawn from the same tileset are cut from different regions. */
  lemma SheetsDistinct(images: map<int, TilesetRecord>, g: int, h: int, s: Sheet, u: Sheet)
    requires SheetFor(images, g, s) && SheetFor(images, h, u) && s.firstgid == u.firstgid
    requires images[s.firstgid].columns > 0 && images[s.firstgid].tilewidth > 0 && images[s.firstgid].tileheight > 0
    requires g != h
    ensures s.region != u.region
  {
    var t := images[s.firstgid];
    if s.region == u.region {
      SourceOriginInjective(g - s.firstgid, h - s.firstgid, t.columns, t.tilewidth, t.tileheight);
    }
  }
}
