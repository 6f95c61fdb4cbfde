/**
 * Decoded Tiled JSON documents (.tmj maps and .tsj tilesets) as the game reads
 * them, and the tileset record the asset manager builds from a tileset file.
 * A key the game reads with `dict.get(key, default)` is an `Option`; a key it
 * reads with `dict[key]` is a plain field.
 */
module Tiled {
  import opened Wrappers
  import opened Numeric

  /** One `{name, value}` entry of a `properties` array; values are strings. */
  datatype Property = Property(name: Option<string>, value: Option<string>)

  /** One entry of a tile's `animation` array. */
  datatype FrameDoc = FrameDoc(tileid: Option<int>, duration: Option<real>)

  /** One entry of a tileset's `tiles` array. */
  datatype TileDoc = TileDoc(
    id: Option<int>,
    properties: Option<seq<Property>>,
    animation: Option<seq<FrameDoc>>)

  /** A tileset file (.tsj). */
  datatype TilesetDoc = TilesetDoc(
    name: Option<string>,
    image: Option<string>,
    columns: Option<int>,
    tilecount: Option<int>,
    tilewidth: Option<int>,
    tileheight: Option<int>,
    properties: Option<seq<Property>>,
    tiles: Option<seq<TileDoc>>)

  /** One entry of an object layer's `objects` array, in pixels. */
  datatype ObjectDoc = ObjectDoc(x: Option<real>, y: Option<real>, width: Option<real>, height: Option<real>)

  /** One entry of a map's `layers` array; `type` and `name` are read with `[]`. */
  datatype LayerDoc = LayerDoc(
    kind: string,
    name: string,
    visible: Option<bool>,
    data: Option<seq<int>>,
    objects: Option<seq<ObjectDoc>>)

  /** One entry of a map's `tilesets` array; `firstgid` is read with `[]`. */
  datatype TilesetRef = TilesetRef(firstgid: int, source: Option<string>)

  /** A map file (.tmj). */
  datatype MapDoc = MapDoc(
    tilewidth: Option<int>,
    tileheight: Option<int>,
    width: Option<int>,
    height: Option<int>,
    tilesets: Option<seq<TilesetRef>>,
    layers: Option<seq<LayerDoc>>)

  /** An animation clip: frame tile ids, per-frame durations in seconds, and their sum. */
  datatype Clip = Clip(frames: seq<int>, durations: seq<real>, totalDuration: real)

  /**
   * The tileset record the asset manager caches. `image` is the resolved image
   * path (the surface loaded from it is not modelled); `animations` keeps the
   * insertion order of the source's dict; `originalData` and `properties` are
   * the keys the tile map adds after a successful load.
   */
  datatype TilesetRecord = TilesetRecord(
    image: string,
    columns: int,
    tilecount: int,
    tilewidth: int,
    tileheight: int,
    firstgid: int,
    animations: seq<(string, Clip)>,
    tiles: seq<TileDoc>,
    originalData: Option<TilesetDoc>,
    properties: Option<seq<Property>>)

  /** The clip stored under `name`, as `dict.get(name)` finds it. */
  function Lookup(clips: seq<(string, Clip)>, name: string): (r: Option<Clip>)
    ensures r.Some? <==> exists i :: 0 <= i < |clips| && clips[i].0 == name
    ensures r.Some? ==> (name, r.value) in clips
  {
    if clips == [] then None
    else if clips[0].0 == name then Some(clips[0].1)
    else Lookup(clips[1..], name)
  }

  /** `d[name] = clip` on an insertion-ordered dict: an existing key keeps its place, a new one goes last. */
  function Put(clips: seq<(string, Clip)>, name: string, clip: Clip): (r: seq<(string, Clip)>)
    ensures Lookup(r, name) == Some(clip)
    ensures forall other :: other != name ==> Lookup(r, other) == Lookup(clips, other)
    ensures Lookup(clips, name).Some? ==> |r| == |clips| && forall j :: 0 <= j < |r| ==> r[j].0 == clips[j].0
    ensures Lookup(clips, name).None? ==> r == clips + [(name, clip)]
    ensures forall e :: e in r ==> e == (name, clip) || e in clips
  {
    if clips == [] then [(name, clip)]
    else if clips[0].0 == name then [(name, clip)] + clips[1..]
    else [clips[0]] + Put(clips[1..], name, clip)
  }

  /**
   * Where tile `id` starts in a tileset image of `columns` columns:
   * `(id % columns * tilewidth, id // columns * tileheight)` with Python's
   * floor division and modulo.
   */
  function SourceOrigin(id: int, columns: int, tileWidth: int, tileHeight: int): (int, int)
    requires columns != 0
  {
    (PyMod(id, columns) * tileWidth, FloorDiv(id, columns) * tileHeight)
  }

  /** Within one image, different tiles start at different places. */
  lemma SourceOriginInjective(a: int, b: int, columns: int, tileWidth: int, tileHeight: int)
    requires columns > 0 && tileWidth > 0 && tileHeight > 0
    requires SourceOrigin(a, columns, tileWidth, tileHeight) == SourceOrigin(b, columns, tileWidth, tileHeight)
    ensures a == b
  {
    CancelFactor(PyMod(a, columns), PyMod(b, columns), tileWidth);
    CancelFactor(FloorDiv(a, columns), FloorDiv(b, columns), tileHeight);
  }

  /** The tile id is recovered from its origin: `row * columns + column`. */
  lemma SourceOriginRoundTrip(id: int, columns: int, tileWidth: int, tileHeight: int)
    requires columns > 0 && tileWidth > 0 && tileHeight > 0
    ensures var (x, y) := SourceOrigin(id, columns, tileWidth, tileHeight);
      x % tileWidth == 0 && y % tileHeight == 0 && 0 <= x < columns * tileWidth
      && (y / tileHeight) * columns + x / tileWidth == id
  {
    var col := PyMod(id, columns);
    var row := FloorDiv(id, columns);
    DivExact(col, tileWidth);
    DivExact(row, tileHeight);
    assert col * tileWidth < columns * tileWidth by {
      assert (columns - col) * tileWidth > 0;
    }
  }

  lemma CancelFactor(a: int, b: int, k: int)
    requires k > 0 && a * k == b * k
    ensures a == b
  {
    assert (a - b) * k == a * k - b * k;
    MulBounds(a - b, k);
  }

  lemma DivExact(a: int, k: int)
    requires k > 0
    ensures (a * k) % k == 0 && (a * k) / k == a
  {
    var q := (a * k) / k;
    var r := (a * k) % k;
    assert (a - q) * k == a * k - q * k;
    MulBounds(a - q, k);
  }
}
