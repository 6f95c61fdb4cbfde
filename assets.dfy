/**
 * The asset manager: reads tileset files, rewrites their image paths, turns
 * each tile's `animation` array into a named clip, caches the record per
 * path, and cuts animation frames out of the tileset image.
 *
 * The file system is a parameter `files`: a path that is not a key does not
 * exist, a key mapped to `None` is a file that cannot be read or parsed.
 * Image surfaces are not modelled: a record keeps the resolved image path,
 * and a frame is the source rectangle it would be copied from.
 */
module Assets {
  import opened Wrappers
  import opened Strings
  import opened Numeric
  import opened Tiled

  type Files = map<string, Option<TilesetDoc>>

  /** The rectangle of the tileset image a frame surface is copied from. */
  datatype Region = Region(x: int, y: int, width: int, height: int)

  // -------------------------------------------------------- image paths

  /** The image path written in a tileset file, as the manager rewrites it before loading it. */
  function ImagePath(image: string, tilesetDir: string): string {
    if StartsWith(image, "static/") then ReplaceAll(image, "static/", "data/assets/tilesets/static/")
    else if StartsWith(image, "animated/") then ReplaceAll(image, "animated/", "data/assets/tilesets/animated/")
    else if !StartsWith(image, "/") && !StartsWith(image, "data/") then JoinPath(tilesetDir, image)
    else image
  }

  /** A `static/` image whose name holds no second `static/` moves under the tileset asset folder. */
  lemma {:induction false} StaticImageRelocated(rest: string, dir: string)
    requires !Contains(rest, "static/")
    ensures ImagePath("static/" + rest, dir) == "data/assets/tilesets/static/" + rest
  {
    var image := "static/" + rest;
    assert image[..|"static/"|] == "static/";
    assert image[|"static/"|..] == rest;
    ReplaceAllAbsent(rest, "static/", "data/assets/tilesets/static/");
  }

  /** The same for `animated/` images. */
  lemma {:induction false} AnimatedImageRelocated(rest: string, dir: string)
    requires !Contains(rest, "animated/")
    ensures ImagePath("animated/" + rest, dir) == "data/assets/tilesets/animated/" + rest
  {
    var image := "animated/" + rest;
    assert image[..|"animated/"|] == "animated/";
    assert image[|"animated/"|..] == rest;
    assert !StartsWith(image, "static/") by {
      assert image[0] == 'a';
    }
    ReplaceAllAbsent(rest, "animated/", "data/assets/tilesets/animated/");
  }

  /**
   * Absolute paths and paths under `data/` are kept; any other relative name
   * that does not start with `static/` or `animated/` is resolved next to the
   * tileset file.
   */
  lemma ImagePathKeptOrJoined(image: string, dir: string)
    ensures StartsWith(image, "/") || StartsWith(image, "data/") ==> ImagePath(image, dir) == image
    ensures !StartsWith(image, "/") && !StartsWith(image, "data/")
      && !StartsWith(image, "static/") && !StartsWith(image, "animated/")
      && dir != [] && !EndsWith(dir, "/")
      ==> ImagePath(image, dir) == dir + "/" + image
  {
    if StartsWith(image, "/") {
      assert image[0] == '/';
      assert !StartsWith(image, "static/") && !StartsWith(image, "animated/");
    } else if StartsWith(image, "data/") {
      assert image[0] == 'd';
      assert !StartsWith(image, "static/") && !StartsWith(image, "animated/");
    }
  }

  // -------------------------------------------------------------- clips

  /** Python's `sum(ds)`, adding left to right. */
  function Sum(ds: seq<real>): real {
    if ds == [] then 0.0 else Sum(ds[..|ds| - 1]) + ds[|ds| - 1]
  }

  lemma {:induction false} SumNonNegative(ds: seq<real>)
    requires forall i :: 0 <= i < |ds| ==> ds[i] >= 0.0
    ensures Sum(ds) >= 0.0
  {
    if ds != [] {
      SumNonNegative(ds[..|ds| - 1]);
    }
  }

  /** The name a tile's clip is stored under: `f"tile_{id}"`. */
  function ClipName(id: int): string {
    "tile_" + IntToString(id)
  }

  /** Different tile ids give different clip names. */
  lemma ClipNameInjective(a: int, b: int)
    requires ClipName(a) == ClipName(b)
    ensures a == b
  {
    assert IntToString(a) == ClipName(a)[5..];
    assert IntToString(b) == ClipName(b)[5..];
    IntToStringRoundTrip(a);
    IntToStringRoundTrip(b);
  }

  /** A frame's duration in seconds; the file gives milliseconds and 100 when absent. */
  function FrameSeconds(f: FrameDoc): real {
    f.duration.GetOr(100.0) / 1000.0
  }

  /** The clip the manager makes of one `animation` array. */
  function ClipOf(frames: seq<FrameDoc>): (c: Clip)
    ensures WellFormedClip(c) && |c.frames| == |frames|
    ensures forall i :: 0 <= i < |frames| ==>
      c.frames[i] == frames[i].tileid.GetOr(0) && c.durations[i] == FrameSeconds(frames[i])
  {
    var durations := seq(|frames|, i requires 0 <= i < |frames| => FrameSeconds(frames[i]));
    Clip(seq(|frames|, i requires 0 <= i < |frames| => frames[i].tileid.GetOr(0)), durations, Sum(durations))
  }

  /** One duration per frame, and the total is their sum. */
  predicate WellFormedClip(c: Clip) {
    |c.frames| == |c.durations| && c.totalDuration == Sum(c.durations)
  }

  /** A tile that declares an animation, with `id` (default 0) equal to n. */
  predicate Animates(t: TileDoc, n: int) {
    t.animation.Some? && t.id.GetOr(0) == n
  }

  /** The `animations` dict built from a `tiles` array, in insertion order. */
  function ClipsOf(tiles: seq<TileDoc>): seq<(string, Clip)> {
    if tiles == [] then []
    else
      var t := tiles[|tiles| - 1];
      var before := ClipsOf(tiles[..|tiles| - 1]);
      if t.animation.Some? then Put(before, ClipName(t.id.GetOr(0)), ClipOf(t.animation.value)) else before
  }

  /** Tile i is the last one that declares an animation for id n. */
  predicate LastAnimating(tiles: seq<TileDoc>, n: int, i: int) {
    0 <= i < |tiles| && Animates(tiles[i], n) && forall j :: i < j < |tiles| ==> !Animates(tiles[j], n)
  }

  /** The clip for id n after one more tile: that tile's when it animates id n, else the one before. */
  lemma LookupAfterTile(tiles: seq<TileDoc>, n: int)
    requires tiles != []
    ensures var t := tiles[|tiles| - 1];
      Lookup(ClipsOf(tiles), ClipName(n)) ==
        if Animates(t, n) then Some(ClipOf(t.animation.value)) else Lookup(ClipsOf(tiles[..|tiles| - 1]), ClipName(n))
  {
    var t := tiles[|tiles| - 1];
    if t.animation.Some? && !Animates(t, n) && ClipName(t.id.GetOr(0)) == ClipName(n) {
      ClipNameInjective(t.id.GetOr(0), n);
    }
  }

  /** Some tile declares an animation with id n. */
  predicate AnyAnimates(tiles: seq<TileDoc>, n: int) {
    exists i :: 0 <= i < |tiles| && Animates(tiles[i], n)
  }

  /**
   * The clip stored for tile n exists exactly when some tile declares an
   * animation with id n, and it is the one of the last such tile.
   */
  lemma {:induction false} ClipsOfLookup(tiles: seq<TileDoc>, n: int)
    ensures Lookup(ClipsOf(tiles), ClipName(n)).Some? <==> AnyAnimates(tiles, n)
    ensures Lookup(ClipsOf(tiles), ClipName(n)).Some? ==>
      exists i :: LastAnimating(tiles, n, i) && Lookup(ClipsOf(tiles), ClipName(n)).value == ClipOf(tiles[i].animation.value)
  {
    if tiles != [] {
      var last := |tiles| - 1;
      var t := tiles[last];
      var front := tiles[..last];
      ClipsOfLookup(front, n);
      LookupAfterTile(tiles, n);
      var r := Lookup(ClipsOf(tiles), ClipName(n));
      if Animates(t, n) {
        assert LastAnimating(tiles, n, last);
      } else if r.Some? {
        var i :| LastAnimating(front, n, i) && r.value == ClipOf(front[i].animation.value);
        LastAnimatingExtends(tiles, n, i);
      } else {
        NoneAnimatesExtends(tiles, n);
      }
    }
  }

  /** A tile that does not animate id n leaves the last one that does in place. */
  lemma LastAnimatingExtends(tiles: seq<TileDoc>, n: int, i: int)
    requires tiles != [] && !Animates(tiles[|tiles| - 1], n)
    requires LastAnimating(tiles[..|tiles| - 1], n, i)
    ensures LastAnimating(tiles, n, i) && tiles[i] == tiles[..|tiles| - 1][i]
  {
    var front := tiles[..|tiles| - 1];
    forall j | i < j < |tiles| ensures !Animates(tiles[j], n) {
      if j < |front| {
        assert front[j] == tiles[j];
      }
    }
  }

  /** A tile that does not animate id n keeps "no tile animates n" true. */
  lemma NoneAnimatesExtends(tiles: seq<TileDoc>, n: int)
    requires tiles != [] && !Animates(tiles[|tiles| - 1], n)
    requires !AnyAnimates(tiles[..|tiles| - 1], n)
    ensures !AnyAnimates(tiles, n)
  {
    var front := tiles[..|tiles| - 1];
    forall i | 0 <= i < |tiles| ensures !Animates(tiles[i], n) {
      if i < |front| {
        assert front[i] == tiles[i];
      }
    }
  }

  /** Every stored entry is named after an animated tile and holds a well-formed clip. */
  lemma {:induction false} ClipsOfEntries(tiles: seq<TileDoc>)
    ensures forall e :: e in ClipsOf(tiles) ==>
      WellFormedClip(e.1)
      && (exists i :: 0 <= i < |tiles| && tiles[i].animation.Some? && e.0 == ClipName(tiles[i].id.GetOr(0)))
  {
    if tiles != [] {
      var last := |tiles| - 1;
      var t := tiles[last];
      var front := tiles[..last];
      ClipsOfEntries(front);
      var before := ClipsOf(front);
      forall e | e in ClipsOf(tiles)
        ensures WellFormedClip(e.1)
        ensures exists i :: 0 <= i < |tiles| && tiles[i].animation.Some? && e.0 == ClipName(tiles[i].id.GetOr(0))
      {
        if t.animation.Some? && e == (ClipName(t.id.GetOr(0)), ClipOf(t.animation.value)) {
          assert tiles[last].animation.Some?;
        } else {
          assert e in before;
          var i :| 0 <= i < |front| && front[i].animation.Some? && e.0 == ClipName(front[i].id.GetOr(0));
          assert front[i] == tiles[i];
        }
      }
    }
  }

  /** The first clip after one more tile: the one before, or that tile's when there was none. */
  lemma FirstAfterTile(tiles: seq<TileDoc>)
    requires tiles != []
    ensures var t, before := tiles[|tiles| - 1], ClipsOf(tiles[..|tiles| - 1]);
      && (ClipsOf(tiles) != [] <==> before != [] || t.animation.Some?)
      && (before != [] ==> ClipsOf(tiles)[0].0 == before[0].0)
      && (before == [] && t.animation.Some? ==> ClipsOf(tiles)[0].0 == ClipName(t.id.GetOr(0)))
  {
    var t, before := tiles[|tiles| - 1], ClipsOf(tiles[..|tiles| - 1]);
    if t.animation.Some? && before != [] {
      var name := ClipName(t.id.GetOr(0));
      var after := Put(before, name, ClipOf(t.animation.value));
      if Lookup(before, name).None? {
        assert after[0] == before[0];
      } else {
        assert after[0].0 == before[0].0;
      }
    }
  }

  /** Tile i is the first one that declares an animation. */
  predicate FirstAnimating(tiles: seq<TileDoc>, i: int) {
    0 <= i < |tiles| && tiles[i].animation.Some? && forall j :: 0 <= j < i ==> tiles[j].animation.None?
  }

  /**
   * The first clip of the dict is stored under the id of the first tile that
   * declares an animation; there is one exactly when some tile does.
   */
  lemma {:induction false} FirstClipName(tiles: seq<TileDoc>)
    ensures ClipsOf(tiles) != [] <==> exists i :: 0 <= i < |tiles| && tiles[i].animation.Some?
    ensures ClipsOf(tiles) != [] ==>
      exists i :: FirstAnimating(tiles, i) && ClipsOf(tiles)[0].0 == ClipName(tiles[i].id.GetOr(0))
  {
    if tiles != [] {
      var last := |tiles| - 1;
      var t := tiles[last];
      var front := tiles[..last];
      FirstClipName(front);
      FirstAfterTile(tiles);
      var before := ClipsOf(front);
      if before != [] {
        var i :| FirstAnimating(front, i) && before[0].0 == ClipName(front[i].id.GetOr(0));
        assert front[i] == tiles[i];
        forall j | 0 <= j < i ensures tiles[j].animation.None? {
          assert front[j] == tiles[j];
        }
        assert FirstAnimating(tiles, i);
      } else if t.animation.Some? {
        forall j | 0 <= j < last ensures tiles[j].animation.None? {
          assert front[j] == tiles[j];
        }
        assert FirstAnimating(tiles, last);
      } else {
        forall i | 0 <= i < |tiles| ensures tiles[i].animation.None? {
          if i < last {
            assert front[i] == tiles[i];
          }
        }
      }
    }
  }

  /** The loop over one `animation` array. */
  method BuildClip(frames: seq<FrameDoc>) returns (c: Clip)
    ensures c == ClipOf(frames)
  {
    var ids: seq<int> := [];
    var durations: seq<real> := [];
    var i := 0;
    while i < |frames|
      invariant 0 <= i <= |frames|
      invariant ids == seq(i, k requires 0 <= k < i => frames[k].tileid.GetOr(0))
      invariant durations == seq(i, k requires 0 <= k < i => FrameSeconds(frames[k]))
    {
      ids := ids + [frames[i].tileid.GetOr(0)];
      durations := durations + [FrameSeconds(frames[i])];
      i := i + 1;
    }
    c := Clip(ids, durations, Sum(durations));
  }

  /** The loop over a tileset's `tiles` array. */
  method BuildClips(tiles: seq<TileDoc>) returns (clips: seq<(string, Clip)>)
    ensures clips == ClipsOf(tiles)
  {
    clips := [];
    var i := 0;
    while i < |tiles|
      invariant 0 <= i <= |tiles|
      invariant clips == ClipsOf(tiles[..i])
    {
      var t := tiles[i];
      assert tiles[..i + 1][..i] == tiles[..i];
      if t.animation.Some? {
        var clip := BuildClip(t.animation.value);
        clips := Put(clips, ClipName(t.id.GetOr(0)), clip);
      }
      i := i + 1;
    }
    assert tiles[..|tiles|] == tiles;
  }

  // ------------------------------------------------------------ records

  /** The record made of a parsed tileset file whose image resolved to `image`. */
  function RecordOf(doc: TilesetDoc, image: string): (r: TilesetRecord)
    ensures r.columns == doc.columns.GetOr(1) && r.tilecount == doc.tilecount.GetOr(1)
    ensures r.tilewidth == doc.tilewidth.GetOr(16) && r.tileheight == doc.tileheight.GetOr(16)
    ensures r.firstgid == 1 && r.image == image && r.tiles == doc.tiles.GetOr([])
    ensures r.originalData.None? && r.properties.None?
  {
    TilesetRecord(image, doc.columns.GetOr(1), doc.tilecount.GetOr(1), doc.tilewidth.GetOr(16),
      doc.tileheight.GetOr(16), 1, ClipsOf(doc.tiles.GetOr([])), doc.tiles.GetOr([]), None, None)
  }

  /** `get_asset_path`: the path under the base directory (normalisation is not modelled). */
  function AssetPath(basePath: string, relative: string): string {
    JoinPath(basePath, relative)
  }

  /** What reading the file of `path` gives, ignoring the cache. */
  function ReadTileset(basePath: string, path: string, files: Files): Option<TilesetRecord> {
    var full := AssetPath(basePath, path);
    if full !in files || files[full].None? then None
    else
      var doc := files[full].value;
      Some(RecordOf(doc, ImagePath(doc.image.GetOr(""), Dirname(full))))
  }

  /** What `load_tileset(path)` returns against a given cache. */
  function Loaded(cache: map<string, TilesetRecord>, basePath: string, path: string, files: Files): Option<TilesetRecord> {
    if path in cache then Some(cache[path]) else ReadTileset(basePath, path, files)
  }

  /** The cache after `load_tileset(path)`: only a successful read is stored. */
  function CacheAfter(cache: map<string, TilesetRecord>, basePath: string, path: string, files: Files): map<string, TilesetRecord> {
    if path in cache then cache
    else
      match ReadTileset(basePath, path, files)
      case Some(r) => cache[path := r]
      case None => cache
  }

  /**
   * Loading is stable: once a path loaded, it keeps returning the same record
   * whatever the files hold later; a failed load leaves the cache alone.
   */
  lemma CacheIsStable(cache: map<string, TilesetRecord>, basePath: string, path: string, files: Files, later: Files)
    ensures var after := CacheAfter(cache, basePath, path, files);
      && cache.Keys <= after.Keys
      && (forall p :: p in cache ==> after[p] == cache[p])
      && (Loaded(cache, basePath, path, files).Some? <==> path in after)
      && (path in after ==> Loaded(after, basePath, path, later) == Loaded(cache, basePath, path, files))
      && (path in after ==> CacheAfter(after, basePath, path, later) == after)
  {
  }

  /** A loaded record's clips are well formed and stored under the names of animated tiles. */
  lemma LoadedClips(cache: map<string, TilesetRecord>, basePath: string, path: string, files: Files, n: int)
    requires path !in cache
    requires ReadTileset(basePath, path, files).Some?
    ensures var r := Loaded(cache, basePath, path, files).value;
      (Lookup(r.animations, ClipName(n)).Some? <==> exists i :: 0 <= i < |r.tiles| && Animates(r.tiles[i], n))
      && forall e :: e in r.animations ==> WellFormedClip(e.1)
  {
    var r := Loaded(cache, basePath, path, files).value;
    ClipsOfLookup(r.tiles, n);
    ClipsOfEntries(r.tiles);
  }

  // --------------------------------------------------------- animations

  /** `get_animation` on an already loaded (or missing) record. */
  function AnimationIn(record: Option<TilesetRecord>, name: Option<string>): (r: Option<Clip>)
    ensures r.Some? ==> record.Some? && record.value.animations != []
    ensures record.Some? && record.value.animations != [] && name.None? ==> r == Some(record.value.animations[0].1)
    ensures record.Some? && name.Some? ==> r == Lookup(record.value.animations, name.value)
  {
    if record.None? || record.value.animations == [] then None
    else if name.None? then Some(record.value.animations[0].1)
    else Lookup(record.value.animations, name.value)
  }

  /** Without a name, the clip returned belongs to the first tile that declares an animation. */
  lemma FirstAnimationOfFile(doc: TilesetDoc, image: string)
    requires exists i :: 0 <= i < |doc.tiles.GetOr([])| && doc.tiles.GetOr([])[i].animation.Some?
    ensures var tiles := doc.tiles.GetOr([]);
      exists i :: 0 <= i < |tiles| && tiles[i].animation.Some?
        && (forall j :: 0 <= j < i ==> tiles[j].animation.None?)
        && AnimationIn(Some(RecordOf(doc, image)), None)
           == AnimationIn(Some(RecordOf(doc, image)), Some(ClipName(tiles[i].id.GetOr(0))))
  {
    var tiles := doc.tiles.GetOr([]);
    FirstClipName(tiles);
    var clips := ClipsOf(tiles);
    var i :| 0 <= i < |tiles| && tiles[i].animation.Some?
      && clips[0].0 == ClipName(tiles[i].id.GetOr(0))
      && forall j :: 0 <= j < i ==> tiles[j].animation.None?;
    assert Lookup(clips, clips[0].0) == Some(clips[0].1);
  }

  /** The frames `create_animation_frames` cuts: one region per frame id of the clip. */
  function FrameRegions(record: TilesetRecord, clip: Clip): (r: seq<Region>)
    requires record.columns != 0
    ensures |r| == |clip.frames|
  {
    seq(|clip.frames|, i requires 0 <= i < |clip.frames| =>
      var (x, y) := SourceOrigin(clip.frames[i], record.columns, record.tilewidth, record.tileheight);
      Region(x, y, record.tilewidth, record.tileheight))
  }

  /** Frames of different tiles are cut from different places of the image. */
  lemma FrameRegionsDistinct(record: TilesetRecord, clip: Clip, i: int, j: int)
    requires record.columns > 0 && record.tilewidth > 0 && record.tileheight > 0
    requires 0 <= i < |clip.frames| && 0 <= j < |clip.frames| && clip.frames[i] != clip.frames[j]
    ensures FrameRegions(record, clip)[i] != FrameRegions(record, clip)[j]
  {
    var cols, tw, th := record.columns, record.tilewidth, record.tileheight;
    if SourceOrigin(clip.frames[i], cols, tw, th) == SourceOrigin(clip.frames[j], cols, tw, th) {
      SourceOriginInjective(clip.frames[i], clip.frames[j], cols, tw, th);
    }
  }

  /**
   * What `create_animation_frames` returns: nothing for a missing tileset,
   * the top-left tile for one second when there is no such clip, and
   * otherwise a region per frame with the clip's own durations.
   */
  function AnimationFrames(record: Option<TilesetRecord>, name: Option<string>): (r: (seq<Region>, seq<real>))
    requires NeedsNoZeroColumns(record, name)
    ensures record.None? ==> r == ([], [])
    ensures record.Some? && AnimationIn(record, name).None? ==>
      r == ([Region(0, 0, record.value.tilewidth, record.value.tileheight)], [1.0])
    ensures AnimationIn(record, name).Some? ==>
      |r.0| == |AnimationIn(record, name).value.frames| && r.1 == AnimationIn(record, name).value.durations
  {
    if record.None? then ([], [])
    else
      match AnimationIn(record, name)
      case None => ([Region(0, 0, record.value.tilewidth, record.value.tileheight)], [1.0])
      case Some(clip) => (FrameRegions(record.value, clip), clip.durations)
  }

  /** Cutting frames divides by the column count exactly when a clip is found. */
  predicate NeedsNoZeroColumns(record: Option<TilesetRecord>, name: Option<string>) {
    AnimationIn(record, name).Some? ==> record.value.columns != 0
  }

  /** The loop over a clip's frame ids. */
  method CutFrames(record: TilesetRecord, clip: Clip) returns (regions: seq<Region>)
    requires record.columns != 0
    ensures regions == FrameRegions(record, clip)
  {
    regions := [];
    var i := 0;
    while i < |clip.frames|
      invariant 0 <= i <= |clip.frames|
      invariant regions == FrameRegions(record, clip)[..i]
    {
      var id := clip.frames[i];
      var col := PyMod(id, record.columns);
      var row := FloorDiv(id, record.columns);
      regions := regions + [Region(col * record.tilewidth, row * record.tileheight, record.tilewidth, record.tileheight)];
      i := i + 1;
    }
  }

  // -------------------------------------------------------------- class

  /**
   * The manager's state that matters here: the base directory and the
   * tileset cache keyed by the path the caller asked for.
   */
  class AssetManager {
    const basePath: string
    var tilesets: map<string, TilesetRecord>

    /** Every cached record holds well-formed clips, as a parsed file gives. */
    ghost predicate Valid()
      reads this
    {
      forall p, e :: p in tilesets && e in tilesets[p].animations ==> WellFormedClip(e.1)
    }

    /** The base directory is given; probing the working directory for it is not modelled. */
    constructor (basePath: string)
      ensures this.basePath == basePath && tilesets == map[] && Valid()
    {
      this.basePath := basePath;
      tilesets := map[];
    }

    /** What `load_tileset(path)` would return now. */
    function Peek(path: string, files: Files): Option<TilesetRecord>
      reads this
    {
      Loaded(tilesets, basePath, path, files)
    }

    method LoadTileset(path: string, files: Files) returns (r: Option<TilesetRecord>)
      requires Valid()
      modifies this`tilesets
      ensures Valid()
      ensures r.Some? ==> forall e :: e in r.value.animations ==> WellFormedClip(e.1)
      ensures r == Loaded(old(tilesets), basePath, path, files)
      ensures tilesets == CacheAfter(old(tilesets), basePath, path, files)
    {
      if path in tilesets {
        return Some(tilesets[path]);
      }
      var full := AssetPath(basePath, path);
      if full !in files {
        return None;
      }
      match files[full]
      case None =>
        r := None;
      case Some(doc) =>
        var image := ImagePath(doc.image.GetOr(""), Dirname(full));
        var clips := BuildClips(doc.tiles.GetOr([]));
        ClipsOfEntries(doc.tiles.GetOr([]));
        var record := TilesetRecord(image, doc.columns.GetOr(1), doc.tilecount.GetOr(1),
          doc.tilewidth.GetOr(16), doc.tileheight.GetOr(16), 1, clips, doc.tiles.GetOr([]), None, None);
        tilesets := tilesets[path := record];
        r := Some(record);
    }

    method GetAnimation(path: string, name: Option<string>, files: Files) returns (r: Option<Clip>)
      requires Valid()
      modifies this`tilesets
      ensures Valid()
      ensures r.Some? ==> WellFormedClip(r.value)
      ensures r == AnimationIn(Loaded(old(tilesets), basePath, path, files), name)
      ensures tilesets == CacheAfter(old(tilesets), basePath, path, files)
    {
      var record := LoadTileset(path, files);
      r := AnimationIn(record, name);
    }

    method CreateAnimationFrames(path: string, name: Option<string>, files: Files)
      returns (frames: seq<Region>, durations: seq<real>)
      requires Valid() && NeedsNoZeroColumns(Peek(path, files), name)
      modifies this`tilesets
      ensures Valid()
      ensures (frames, durations) == AnimationFrames(Loaded(old(tilesets), basePath, path, files), name)
      ensures tilesets == CacheAfter(old(tilesets), basePath, path, files)
    {
      var record := LoadTileset(path, files);
      if record.None? {
        return [], [];
      }
      var clip := GetAnimation(path, name, files);
      match clip
      case None =>
        frames, durations := [Region(0, 0, record.value.tilewidth, record.value.tileheight)], [1.0];
      case Some(c) =>
        frames := CutFrames(record.value, c);
        durations := c.durations;
    }
  }
}
