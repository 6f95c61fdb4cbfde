/**
 * The collision index of src/components/collision.py: the set of collidable
 * global tile ids, the collision rectangles read from object layers, the
 * height-by-width occupancy grid, and the point query built on them.
 *
 * The loops of the source are module-level methods over values, each proved
 * against a specification function; `CollisionManager` holds the state and
 * calls them, and the legacy tile map of src/world.py calls the same methods.
 */
module Collision {
  import opened Wrappers
  import opened Strings
  import opened Numeric
  import opened Tiled

  /** A collision rectangle in tile units: the source's `collision_rect` dict. */
  datatype Rect = Rect(x: real, y: real, width: real, height: real)

  // ------------------------------------------------ collidable tile ids

  /** `prop.get('name') == 'collidable'` and `prop.get('value', 'false').lower() == 'true'`. */
  predicate SaysCollidable(p: Property) {
    p.name == Some("collidable") && Lower(p.value.GetOr("false")) == "true"
  }

  predicate AnyCollidable(props: seq<Property>) {
    exists k :: 0 <= k < |props| && SaysCollidable(props[k])
  }

  predicate TileFlagged(t: TileDoc) {
    t.properties.Some? && AnyCollidable(t.properties.value)
  }

  predicate TilesetFlagged(ts: TilesetRecord) {
    ts.properties.Some? && AnyCollidable(ts.properties.value)
  }

  /** `tileset.get('original_data', {}).get('name', 'Unknown')`. */
  function TilesetName(ts: TilesetRecord): string {
    match ts.originalData
    case Some(d) => d.name.GetOr("Unknown")
    case None => "Unknown"
  }

  /** The tile entries identification scans: `original_data['tiles']` when both keys are present. */
  function TileEntries(ts: TilesetRecord): seq<TileDoc> {
    match ts.originalData
    case Some(d) => d.tiles.GetOr([])
    case None => []
  }

  /** The gids `firstgid + i` for `i in range(count)`. */
  function GidRange(firstgid: int, count: int): set<int> {
    if count <= 0 then {} else GidRange(firstgid, count - 1) + {firstgid + count - 1}
  }

  /** The range holds exactly the gids from `firstgid` up to, not including, `firstgid + count`. */
  lemma {:induction false} GidRangeMembers(firstgid: int, count: int, g: int)
    ensures g in GidRange(firstgid, count) <==> firstgid <= g < firstgid + count
    decreases count
  {
    if count > 0 {
      GidRangeMembers(firstgid, count - 1, g);
    }
  }

  /** `firstgid + id` for every tile entry that carries a true `collidable` property. */
  function FlaggedGids(firstgid: int, tiles: seq<TileDoc>): set<int> {
    if tiles == [] then {}
    else
      var last := tiles[|tiles| - 1];
      FlaggedGids(firstgid, tiles[..|tiles| - 1])
        + (if TileFlagged(last) then {firstgid + last.id.GetOr(0)} else {})
  }

  /**
   * The gids one tileset contributes: its whole range when the tileset itself is
   * flagged, each flagged tile, and the whole range again when the tileset is
   * named "Water" and at least one of its tiles is flagged.
   */
  function TilesetCollidable(firstgid: int, ts: TilesetRecord): set<int> {
    var whole := GidRange(firstgid, ts.tilecount);
    var flagged := FlaggedGids(firstgid, TileEntries(ts));
    (if TilesetFlagged(ts) then whole else {})
      + flagged
      + (if TilesetName(ts) == "Water" && flagged != {} then whole else {})
  }

  /** The union over the tilesets whose firstgids are in `done`. */
  function CollidableOver(tilesets: map<int, TilesetRecord>, done: set<int>): set<int> {
    set fg, g | fg in done && fg in tilesets && g in TilesetCollidable(fg, tilesets[fg]) :: g
  }

  /** Every collidable gid of a map's tilesets, keyed by firstgid. */
  function CollidableGids(tilesets: map<int, TilesetRecord>): set<int> {
    CollidableOver(tilesets, tilesets.Keys)
  }

  /** A flagged tile entry contributes exactly `firstgid + id`, and nothing else does. */
  lemma {:induction false} FlaggedGidsExactly(firstgid: int, tiles: seq<TileDoc>, g: int)
    ensures g in FlaggedGids(firstgid, tiles) <==>
      exists i :: 0 <= i < |tiles| && TileFlagged(tiles[i]) && g == firstgid + tiles[i].id.GetOr(0)
    decreases |tiles|
  {
    if tiles != [] {
      var init := tiles[..|tiles| - 1];
      FlaggedGidsExactly(firstgid, init, g);
      if g in FlaggedGids(firstgid, init) {
        var i :| 0 <= i < |init| && TileFlagged(init[i]) && g == firstgid + init[i].id.GetOr(0);
        assert tiles[i] == init[i];
      }
      if exists i :: 0 <= i < |tiles| && TileFlagged(tiles[i]) && g == firstgid + tiles[i].id.GetOr(0) {
        var i :| 0 <= i < |tiles| && TileFlagged(tiles[i]) && g == firstgid + tiles[i].id.GetOr(0);
        if i < |init| {
          assert init[i] == tiles[i];
        }
      }
    }
  }

  /** A tileset whose own properties say collidable contributes its whole gid range. */
  lemma TilesetFlagCoversRange(tilesets: map<int, TilesetRecord>, firstgid: int, i: int)
    requires firstgid in tilesets && TilesetFlagged(tilesets[firstgid])
    requires 0 <= i < tilesets[firstgid].tilecount
    ensures firstgid + i in CollidableGids(tilesets)
  {
    GidRangeMembers(firstgid, tilesets[firstgid].tilecount, firstgid + i);
    assert firstgid + i in TilesetCollidable(firstgid, tilesets[firstgid]);
  }

  /** A flagged tile entry makes `firstgid + id` collidable. */
  lemma FlaggedTileIsCollidable(tilesets: map<int, TilesetRecord>, firstgid: int, i: int)
    requires firstgid in tilesets
    requires 0 <= i < |TileEntries(tilesets[firstgid])| && TileFlagged(TileEntries(tilesets[firstgid])[i])
    ensures firstgid + TileEntries(tilesets[firstgid])[i].id.GetOr(0) in CollidableGids(tilesets)
  {
    var ts := tilesets[firstgid];
    var g := firstgid + TileEntries(ts)[i].id.GetOr(0);
    FlaggedGidsExactly(firstgid, TileEntries(ts), g);
    assert g in TilesetCollidable(firstgid, ts);
  }

  /** In the tileset named "Water", one flagged tile makes the whole range collidable. */
  lemma WaterOverride(tilesets: map<int, TilesetRecord>, firstgid: int, i: int, k: int)
    requires firstgid in tilesets && TilesetName(tilesets[firstgid]) == "Water"
    requires 0 <= i < |TileEntries(tilesets[firstgid])| && TileFlagged(TileEntries(tilesets[firstgid])[i])
    requires 0 <= k < tilesets[firstgid].tilecount
    ensures firstgid + k in CollidableGids(tilesets)
  {
    var ts := tilesets[firstgid];
    FlaggedGidsExactly(firstgid, TileEntries(ts), firstgid + TileEntries(ts)[i].id.GetOr(0));
    assert FlaggedGids(firstgid, TileEntries(ts)) != {};
    GidRangeMembers(firstgid, ts.tilecount, firstgid + k);
    assert firstgid + k in TilesetCollidable(firstgid, ts);
  }

  /**
   * Conversely, every collidable gid comes from one of the three rules: a
   * flagged tileset's range, a flagged tile, or the "Water" range.
   */
  lemma CollidableGidHasSource(tilesets: map<int, TilesetRecord>, g: int)
    requires g in CollidableGids(tilesets)
    ensures exists fg :: (fg in tilesets &&
      ((fg <= g < fg + tilesets[fg].tilecount
          && (TilesetFlagged(tilesets[fg]) || (TilesetName(tilesets[fg]) == "Water" && FlaggedGids(fg, TileEntries(tilesets[fg])) != {})))
       || (exists i :: 0 <= i < |TileEntries(tilesets[fg])| && TileFlagged(TileEntries(tilesets[fg])[i])
            && g == fg + TileEntries(tilesets[fg])[i].id.GetOr(0))))
  {
    var fg :| fg in tilesets && g in TilesetCollidable(fg, tilesets[fg]);
    FlaggedGidsExactly(fg, TileEntries(tilesets[fg]), g);
    GidRangeMembers(fg, tilesets[fg].tilecount, g);
  }

  /** The tileset-level `collidable` scan, stopping at the first true one. */
  method HasCollidableFlag(props: seq<Property>) returns (found: bool)
    ensures found == AnyCollidable(props)
  {
    found := false;
    var k := 0;
    while k < |props|
      invariant 0 <= k <= |props|
      invariant !found && forall j :: 0 <= j < k ==> !SaysCollidable(props[j])
    {
      if props[k].name == Some("collidable") && Lower(props[k].value.GetOr("false")) == "true" {
        found := true;
        break;
      }
      k := k + 1;
    }
  }

  /** `for i in range(count): collidable_tiles[firstgid + i] = True`. */
  method AddRange(acc: set<int>, firstgid: int, count: int) returns (r: set<int>)
    ensures r == acc + GidRange(firstgid, count)
  {
    r := acc;
    var i := 0;
    while i < count
      invariant count >= 0 ==> 0 <= i <= count
      invariant r == acc + GidRange(firstgid, if count >= 0 then i else 0)
    {
      r := r + {firstgid + i};
      i := i + 1;
    }
  }

  /** One tileset's pass of `identify_collidable_tiles`. */
  method MarkTileset(acc: set<int>, firstgid: int, ts: TilesetRecord) returns (r: set<int>)
    ensures r == acc + TilesetCollidable(firstgid, ts)
  {
    var whole := GidRange(firstgid, ts.tilecount);
    r := acc;
    var flag := false;
    if ts.properties.Some? {
      flag := HasCollidableFlag(ts.properties.value);
    }
    if flag {
      r := AddRange(r, firstgid, ts.tilecount);
    }
    var base := r;
    var tiles := TileEntries(ts);
    var water := TilesetName(ts) == "Water";
    var i := 0;
    while i < |tiles|
      invariant 0 <= i <= |tiles|
      invariant base == acc + (if TilesetFlagged(ts) then whole else {})
      invariant r == base + FlaggedGids(firstgid, tiles[..i])
        + (if water && FlaggedGids(firstgid, tiles[..i]) != {} then whole else {})
    {
      var tile := tiles[i];
      var gid := firstgid + tile.id.GetOr(0);
      var before := r;
      if tile.properties.Some? {
        var props := tile.properties.value;
        var k := 0;
        while k < |props|
          invariant 0 <= k <= |props|
          invariant r == before + (if AnyCollidable(props[..k]) then {gid} + (if water then whole else {}) else {})
        {
          if props[k].name == Some("collidable") && Lower(props[k].value.GetOr("false")) == "true" {
            r := r + {gid};
            if water {
              r := AddRange(r, firstgid, ts.tilecount);
            }
          }
          assert AnyCollidable(props[..k + 1]) <==> AnyCollidable(props[..k]) || SaysCollidable(props[k]) by {
            assert forall j :: 0 <= j < k ==> props[..k + 1][j] == props[..k][j];
            assert props[..k + 1][k] == props[k];
          }
          k := k + 1;
        }
        assert props[..k] == props;
      }
      assert tiles[..i + 1][..i] == tiles[..i];
      i := i + 1;
    }
    assert tiles[..i] == tiles;
  }

  /** `identify_collidable_tiles`: adds every collidable gid of every registered tileset. */
  method MarkCollidable(acc: set<int>, tilesets: map<int, TilesetRecord>) returns (r: set<int>)
    ensures r == acc + CollidableGids(tilesets)
  {
    r := acc;
    var todo := tilesets.Keys;
    while todo != {}
      invariant todo <= tilesets.Keys
      invariant r == acc + CollidableOver(tilesets, tilesets.Keys - todo)
      decreases todo
    {
      var fg := PickKey(todo);
      r := MarkTileset(r, fg, tilesets[fg]);
      ghost var before := tilesets.Keys - todo;
      todo := todo - {fg};
      assert tilesets.Keys - todo == before + {fg};
      CollidableOverStep(tilesets, before, fg);
    }
  }

  /** Adding one tileset to the scanned ones adds exactly its collidable gids. */
  lemma CollidableOverStep(tilesets: map<int, TilesetRecord>, done: set<int>, fg: int)
    requires fg in tilesets
    ensures CollidableOver(tilesets, done + {fg})
         == CollidableOver(tilesets, done) + TilesetCollidable(fg, tilesets[fg])
  {
    forall g | g in CollidableOver(tilesets, done + {fg})
      ensures g in CollidableOver(tilesets, done) + TilesetCollidable(fg, tilesets[fg])
    {
      var f :| f in done + {fg} && f in tilesets && g in TilesetCollidable(f, tilesets[f]);
      if f != fg {
        assert f in done;
      }
    }
    forall g | g in CollidableOver(tilesets, done) + TilesetCollidable(fg, tilesets[fg])
      ensures g in CollidableOver(tilesets, done + {fg})
    {
      if g in CollidableOver(tilesets, done) {
        var f :| f in done && f in tilesets && g in TilesetCollidable(f, tilesets[f]);
        assert f in done + {fg};
      } else {
        assert fg in done + {fg};
      }
    }
  }

  // ------------------------------------------------ collision objects

  /** `type == 'objectgroup'` and "collision" occurs in the lower-cased name. */
  predicate IsCollisionLayer(l: LayerDoc) {
    l.kind == "objectgroup" && Contains(Lower(l.name), "collision")
  }

  /** An object's pixel rectangle divided by the tile size; missing keys read as 0. */
  function ToTiles(o: ObjectDoc, tileWidth: int, tileHeight: int): Rect
    requires tileWidth != 0 && tileHeight != 0
  {
    Rect(o.x.GetOr(0.0) / tileWidth as real, o.y.GetOr(0.0) / tileHeight as real,
         o.width.GetOr(0.0) / tileWidth as real, o.height.GetOr(0.0) / tileHeight as real)
  }

  /** The objects of a layer that `load_collision_objects` reads: `layer.get('objects', [])`. */
  function LayerObjects(l: LayerDoc): seq<ObjectDoc> {
    l.objects.GetOr([])
  }

  /** The division by the tile size only happens for objects of collision layers. */
  predicate DividesSafely(layers: seq<LayerDoc>, tileWidth: int, tileHeight: int) {
    (tileWidth != 0 && tileHeight != 0)
    || forall i :: 0 <= i < |layers| && IsCollisionLayer(layers[i]) ==> LayerObjects(layers[i]) == []
  }

  /** The rectangles of all collision layers, layer by layer and object by object. */
  function ObjectsFrom(layers: seq<LayerDoc>, tileWidth: int, tileHeight: int): seq<Rect>
    requires DividesSafely(layers, tileWidth, tileHeight)
  {
    if layers == [] then []
    else
      var last := layers[|layers| - 1];
      ObjectsFrom(layers[..|layers| - 1], tileWidth, tileHeight)
        + (if IsCollisionLayer(last) then
             assert LayerObjects(last) != [] ==> tileWidth != 0 && tileHeight != 0;
             seq(|LayerObjects(last)|, j requires 0 <= j < |LayerObjects(last)| =>
               ToTiles(LayerObjects(last)[j], tileWidth, tileHeight))
           else [])
  }

  /** The number of objects the collision layers hold; zero-size objects are counted too. */
  function CollisionObjectCount(layers: seq<LayerDoc>): nat {
    if layers == [] then 0
    else
      CollisionObjectCount(layers[..|layers| - 1])
        + (if IsCollisionLayer(layers[|layers| - 1]) then |LayerObjects(layers[|layers| - 1])| else 0)
  }

  /** One rectangle per object of every collision layer, none dropped. */
  lemma {:induction false} ObjectsFromCount(layers: seq<LayerDoc>, tileWidth: int, tileHeight: int)
    requires DividesSafely(layers, tileWidth, tileHeight)
    ensures |ObjectsFrom(layers, tileWidth, tileHeight)| == CollisionObjectCount(layers)
    decreases |layers|
  {
    if layers != [] {
      ObjectsFromCount(layers[..|layers| - 1], tileWidth, tileHeight);
    }
  }

  /** Loading the layers of two lists one after the other appends their rectangles. */
  lemma {:induction false} ObjectsFromAppend(a: seq<LayerDoc>, b: seq<LayerDoc>, tileWidth: int, tileHeight: int)
    requires DividesSafely(a + b, tileWidth, tileHeight)
    ensures DividesSafely(a, tileWidth, tileHeight) && DividesSafely(b, tileWidth, tileHeight)
    ensures ObjectsFrom(a + b, tileWidth, tileHeight)
      == ObjectsFrom(a, tileWidth, tileHeight) + ObjectsFrom(b, tileWidth, tileHeight)
    decreases |b|
  {
    DividesSafelyParts(a, b, tileWidth, tileHeight);
    if b != [] {
      var init, last := b[..|b| - 1], b[|b| - 1];
      assert a + b == (a + init) + [last];
      DividesSafelyParts(a + init, [last], tileWidth, tileHeight);
      ObjectsFromAppend(a, init, tileWidth, tileHeight);
      ObjectsFromSnoc(a + b, tileWidth, tileHeight);
      ObjectsFromSnoc(b, tileWidth, tileHeight);
      assert (a + b)[..|a + b| - 1] == a + init && [(a + b)[|a + b| - 1]] == [last];
    } else {
      assert a + b == a;
    }
  }

  /** The rectangles of a list are those of all but its last layer, then the last layer's. */
  lemma ObjectsFromSnoc(layers: seq<LayerDoc>, tileWidth: int, tileHeight: int)
    requires layers != [] && DividesSafely(layers, tileWidth, tileHeight)
    ensures DividesSafely(layers[..|layers| - 1], tileWidth, tileHeight)
    ensures DividesSafely([layers[|layers| - 1]], tileWidth, tileHeight)
    ensures ObjectsFrom(layers, tileWidth, tileHeight)
      == ObjectsFrom(layers[..|layers| - 1], tileWidth, tileHeight) + ObjectsFrom([layers[|layers| - 1]], tileWidth, tileHeight)
  {
    var init, last := layers[..|layers| - 1], layers[|layers| - 1];
    assert layers == init + [last];
    DividesSafelyParts(init, [last], tileWidth, tileHeight);
    assert [last][..0] == [];
  }

  /** Both halves of a list that divides safely divide safely. */
  lemma DividesSafelyParts(a: seq<LayerDoc>, b: seq<LayerDoc>, tileWidth: int, tileHeight: int)
    requires DividesSafely(a + b, tileWidth, tileHeight)
    ensures DividesSafely(a, tileWidth, tileHeight) && DividesSafely(b, tileWidth, tileHeight)
  {
    assert forall i :: 0 <= i < |a| ==> (a + b)[i] == a[i];
    assert forall i :: 0 <= i < |b| ==> (a + b)[|a| + i] == b[i];
  }

  /** Scaling back by the tile size recovers the object's own pixel rectangle. */
  lemma ToTilesRoundTrip(o: ObjectDoc, tileWidth: int, tileHeight: int)
    requires tileWidth != 0 && tileHeight != 0
    ensures ToTiles(o, tileWidth, tileHeight).x * tileWidth as real == o.x.GetOr(0.0)
    ensures ToTiles(o, tileWidth, tileHeight).y * tileHeight as real == o.y.GetOr(0.0)
    ensures ToTiles(o, tileWidth, tileHeight).width * tileWidth as real == o.width.GetOr(0.0)
    ensures ToTiles(o, tileWidth, tileHeight).height * tileHeight as real == o.height.GetOr(0.0)
  {
    DivMul(o.x.GetOr(0.0), tileWidth as real);
    DivMul(o.y.GetOr(0.0), tileHeight as real);
    DivMul(o.width.GetOr(0.0), tileWidth as real);
    DivMul(o.height.GetOr(0.0), tileHeight as real);
  }

  /** `load_collision_objects`: appends the rectangles of every collision layer, in order. */
  method LoadObjects(acc: seq<Rect>, layers: seq<LayerDoc>, tileWidth: int, tileHeight: int) returns (r: seq<Rect>)
    requires DividesSafely(layers, tileWidth, tileHeight)
    ensures r == acc + ObjectsFrom(layers, tileWidth, tileHeight)
  {
    r := acc;
    var i := 0;
    while i < |layers|
      invariant 0 <= i <= |layers|
      invariant DividesSafely(layers[..i], tileWidth, tileHeight)
      invariant r == acc + ObjectsFrom(layers[..i], tileWidth, tileHeight)
    {
      var layer := layers[i];
      assert layers[..i + 1][..i] == layers[..i];
      assert layers[..i + 1][i] == layer;
      if layer.kind == "objectgroup" && Contains(Lower(layer.name), "collision") {
        var objects := LayerObjects(layer);
        ghost var before := r;
        var j := 0;
        while j < |objects|
          invariant 0 <= j <= |objects|
          invariant objects != [] ==> tileWidth != 0 && tileHeight != 0
          invariant r == before + seq(j, k requires 0 <= k < j => ToTiles(objects[k], tileWidth, tileHeight))
        {
          r := r + [ToTiles(objects[j], tileWidth, tileHeight)];
          j := j + 1;
        }
      }
      i := i + 1;
    }
    assert layers[..i] == layers;
  }

  // ------------------------------------------------ the occupancy grid

  /** A list of `height` rows of `width` cells. */
  predicate Shaped(grid: seq<seq<bool>>, width: nat, height: nat) {
    |grid| == height && forall y :: 0 <= y < height ==> |grid[y]| == width
  }

  /** `range(n)` is empty for a negative n: the grid of a negative dimension has no cells. */
  function NatOf(n: int): nat {
    if n < 0 then 0 else n
  }

  /** `[[False for _ in range(width)] for _ in range(height)]`. */
  function EmptyGrid(width: nat, height: nat): (g: seq<seq<bool>>)
    ensures Shaped(g, width, height)
    ensures forall y, x :: 0 <= y < height && 0 <= x < width ==> !g[y][x]
  {
    seq(height, _ => seq(width, _ => false))
  }

  /** A visible tile layer holds a nonzero collidable gid at index `y*width+x` of its data. */
  predicate LayerMarks(l: LayerDoc, collidable: set<int>, width: nat, x: nat, y: nat) {
    && l.kind == "tilelayer" && l.visible.GetOr(true)
    && var data := l.data.GetOr([]);
       y * width + x < |data| && data[y * width + x] != 0 && data[y * width + x] in collidable
  }

  /** The cell lies in `[max(0,int(x)), min(width,int(x+w)+1))` and likewise for y. */
  predicate ObjectMarks(o: Rect, width: nat, height: nat, x: int, y: int) {
    && Max(0, Trunc(o.x)) <= x < Min(width, Trunc(o.x + o.width) + 1)
    && Max(0, Trunc(o.y)) <= y < Min(height, Trunc(o.y + o.height) + 1)
  }

  predicate AnyLayerMarks(layers: seq<LayerDoc>, collidable: set<int>, width: nat, x: nat, y: nat) {
    exists i :: 0 <= i < |layers| && LayerMarks(layers[i], collidable, width, x, y)
  }

  predicate AnyObjectMarks(objects: seq<Rect>, width: nat, height: nat, x: nat, y: nat) {
    exists j :: 0 <= j < |objects| && ObjectMarks(objects[j], width, height, x, y)
  }

  /** The grid after `build_collision_map`: each cell is set if it was set or some source marks it. */
  function Built(grid: seq<seq<bool>>, layers: seq<LayerDoc>, collidable: set<int>, objects: seq<Rect>,
                 width: nat, height: nat): (g: seq<seq<bool>>)
    requires Shaped(grid, width, height)
    ensures Shaped(g, width, height)
  {
    seq(height, y requires 0 <= y < height =>
      seq(width, x requires 0 <= x < width =>
        grid[y][x] || AnyLayerMarks(layers, collidable, width, x, y) || AnyObjectMarks(objects, width, height, x, y)))
  }

  /** Two grids of one shape with the same cells are the same grid. */
  lemma SameCells(a: seq<seq<bool>>, b: seq<seq<bool>>, width: nat, height: nat)
    requires Shaped(a, width, height) && Shaped(b, width, height)
    requires forall y, x :: 0 <= y < height && 0 <= x < width ==> a[y][x] == b[y][x]
    ensures a == b
  {
    forall y | 0 <= y < height ensures a[y] == b[y] {
      assert forall x :: 0 <= x < width ==> a[y][x] == b[y][x];
    }
  }

  /** The build only ever sets cells: a set cell stays set. */
  lemma BuiltKeepsSetCells(grid: seq<seq<bool>>, layers: seq<LayerDoc>, collidable: set<int>, objects: seq<Rect>,
                           width: nat, height: nat, x: nat, y: nat)
    requires Shaped(grid, width, height) && y < height && x < width && grid[y][x]
    ensures Built(grid, layers, collidable, objects, width, height)[y][x]
  {
  }

  /** Running the build a second time on the same inputs changes nothing. */
  lemma BuiltIdempotent(grid: seq<seq<bool>>, layers: seq<LayerDoc>, collidable: set<int>, objects: seq<Rect>,
                        width: nat, height: nat)
    requires Shaped(grid, width, height)
    ensures Built(Built(grid, layers, collidable, objects, width, height), layers, collidable, objects, width, height)
         == Built(grid, layers, collidable, objects, width, height)
  {
    var once := Built(grid, layers, collidable, objects, width, height);
    SameCells(Built(once, layers, collidable, objects, width, height), once, width, height);
  }

  /** From the all-False grid, a cell ends up set exactly when a visible tile layer or an object marks it. */
  lemma BuiltFromEmpty(layers: seq<LayerDoc>, collidable: set<int>, objects: seq<Rect>,
                       width: nat, height: nat, x: nat, y: nat)
    requires x < width && y < height
    ensures Built(EmptyGrid(width, height), layers, collidable, objects, width, height)[y][x]
        <==> AnyLayerMarks(layers, collidable, width, x, y) || AnyObjectMarks(objects, width, height, x, y)
  {
  }

  /** Hidden layers and layers that are not tile layers never mark a cell. */
  lemma OnlyVisibleTileLayersMark(l: LayerDoc, collidable: set<int>, width: nat, x: nat, y: nat)
    requires l.kind != "tilelayer" || l.visible == Some(false)
    ensures !LayerMarks(l, collidable, width, x, y)
  {
  }

  /**
   * The cell holding a point inside an object's pixel rectangle is one the object
   * marks, whenever that cell is on the map: the inclusive end cell makes the
   * grid cover every object completely.
   */
  lemma {:induction false} ObjectCoversItsPoints(o: Rect, tileWidth: int, tileHeight: int,
                                                 width: nat, height: nat, px: real, py: real)
    requires tileWidth > 0 && tileHeight > 0
    requires InsideObject(o, tileWidth, tileHeight, px, py)
    requires 0 <= TileOf(px, tileWidth) < width && 0 <= TileOf(py, tileHeight) < height
    ensures ObjectMarks(o, width, height, TileOf(px, tileWidth), TileOf(py, tileHeight))
  {
    SpanCovers(o.x, o.width, tileWidth, px);
    SpanCovers(o.y, o.height, tileHeight, py);
  }

  /** One axis of `ObjectCoversItsPoints`. */
  lemma SpanCovers(lo: real, extent: real, size: int, p: real)
    requires size > 0
    requires lo * size as real <= p < lo * size as real + extent * size as real
    requires TileOf(p, size) >= 0
    ensures Trunc(lo) <= TileOf(p, size) < Trunc(lo + extent) + 1
  {
    var c := size as real;
    var t := TileOf(p, size);
    assert (lo + extent) * c == lo * c + extent * c;
    LessAfterScaling(lo, (t + 1) as real, c, p);
    LessAfterScaling(t as real, lo + extent, c, p);
  }

  /** `a*c <= p < b*c` with c positive gives `a < b`. */
  lemma LessAfterScaling(a: real, b: real, c: real, p: real)
    requires c > 0.0 && a * c <= p < b * c
    ensures a < b
  {
  }

  /** `build_collision_map`'s tile-layer pass for one layer. */
  method MarkLayer(grid: seq<seq<bool>>, l: LayerDoc, collidable: set<int>, width: nat, height: nat)
    returns (g: seq<seq<bool>>)
    requires Shaped(grid, width, height)
    ensures Shaped(g, width, height)
    ensures forall y, x :: 0 <= y < height && 0 <= x < width ==>
      g[y][x] == (grid[y][x] || LayerMarks(l, collidable, width, x, y))
  {
    g := grid;
    if l.kind == "tilelayer" && l.visible.GetOr(true) {
      var data := l.data.GetOr([]);
      var y := 0;
      while y < height
        invariant 0 <= y <= height
        invariant Shaped(g, width, height)
        invariant forall r, c :: 0 <= r < height && 0 <= c < width ==>
          g[r][c] == (grid[r][c] || (r < y && LayerMarks(l, collidable, width, c, r)))
      {
        var x := 0;
        while x < width
          invariant 0 <= x <= width
          invariant Shaped(g, width, height)
          invariant forall r, c :: 0 <= r < height && 0 <= c < width ==>
            g[r][c] == (grid[r][c] || ((r < y || (r == y && c < x)) && LayerMarks(l, collidable, width, c, r)))
        {
          var index := y * width + x;
          if index < |data| {
            var gid := data[index];
            if gid != 0 && gid in collidable {
              g := g[y := g[y][x := true]];
            }
          }
          x := x + 1;
        }
        y := y + 1;
      }
    }
  }

  /** `build_collision_map`'s pass for one object: every cell of its clamped range. */
  method MarkObject(grid: seq<seq<bool>>, o: Rect, width: nat, height: nat) returns (g: seq<seq<bool>>)
    requires Shaped(grid, width, height)
    ensures Shaped(g, width, height)
    ensures forall y, x :: 0 <= y < height && 0 <= x < width ==>
      g[y][x] == (grid[y][x] || ObjectMarks(o, width, height, x, y))
  {
    g := grid;
    var startX := Max(0, Trunc(o.x));
    var startY := Max(0, Trunc(o.y));
    var endX := Min(width, Trunc(o.x + o.width) + 1);
    var endY := Min(height, Trunc(o.y + o.height) + 1);
    var y := startY;
    while y < endY
      invariant startY <= y && (startY <= endY ==> y <= endY)
      invariant Shaped(g, width, height)
      invariant forall r, c :: 0 <= r < height && 0 <= c < width ==>
        g[r][c] == (grid[r][c] || (r < y && ObjectMarks(o, width, height, c, r)))
    {
      var x := startX;
      while x < endX
        invariant startX <= x && (startX <= endX ==> x <= endX)
        invariant Shaped(g, width, height)
        invariant forall r, c :: 0 <= r < height && 0 <= c < width ==>
          g[r][c] == (grid[r][c] || ((r < y || (r == y && c < x)) && ObjectMarks(o, width, height, c, r)))
      {
        if 0 <= x < width && 0 <= y < height {
          g := g[y := g[y][x := true]];
        }
        x := x + 1;
      }
      y := y + 1;
    }
  }

  /** `build_collision_map`: visible tile layers first, then the collision objects. */
  method BuildGrid(grid: seq<seq<bool>>, layers: seq<LayerDoc>, collidable: set<int>, objects: seq<Rect>,
                   width: nat, height: nat) returns (g: seq<seq<bool>>)
    requires Shaped(grid, width, height)
    ensures g == Built(grid, layers, collidable, objects, width, height)
  {
    g := grid;
    var i := 0;
    while i < |layers|
      invariant 0 <= i <= |layers|
      invariant Shaped(g, width, height)
      invariant forall y, x :: 0 <= y < height && 0 <= x < width ==>
        g[y][x] == (grid[y][x] || AnyLayerMarks(layers[..i], collidable, width, x, y))
    {
      g := MarkLayer(g, layers[i], collidable, width, height);
      assert forall k :: 0 <= k < i ==> layers[..i + 1][k] == layers[..i][k];
      assert layers[..i + 1][i] == layers[i];
      i := i + 1;
    }
    assert layers[..i] == layers;
    var j := 0;
    while j < |objects|
      invariant 0 <= j <= |objects|
      invariant Shaped(g, width, height)
      invariant forall y, x :: 0 <= y < height && 0 <= x < width ==>
        g[y][x] == (grid[y][x] || AnyLayerMarks(layers, collidable, width, x, y)
                    || AnyObjectMarks(objects[..j], width, height, x, y))
    {
      g := MarkObject(g, objects[j], width, height);
      assert forall k :: 0 <= k < j ==> objects[..j + 1][k] == objects[..j][k];
      assert objects[..j + 1][j] == objects[j];
      j := j + 1;
    }
    assert objects[..j] == objects;
    SameCells(g, Built(grid, layers, collidable, objects, width, height), width, height);
  }

  // ------------------------------------------------ the point query

  /** What a point query reads: tile size, map size, the grid and the rectangles. */
  datatype CollisionIndex = CollisionIndex(
    tileWidth: int, tileHeight: int, mapWidth: int, mapHeight: int,
    grid: seq<seq<bool>>, objects: seq<Rect>)

  /** Positive tile sizes (the query divides by them) and a grid of the map's shape. */
  predicate WellFormed(ix: CollisionIndex) {
    ix.tileWidth > 0 && ix.tileHeight > 0 && Shaped(ix.grid, NatOf(ix.mapWidth), NatOf(ix.mapHeight))
  }

  /** The point's cell, `int(x // tile_width)` by `int(y // tile_height)`, is on the map and set. */
  predicate CellBlocked(ix: CollisionIndex, x: real, y: real)
    requires WellFormed(ix)
  {
    var tx := TileOf(x, ix.tileWidth);
    var ty := TileOf(y, ix.tileHeight);
    0 <= tx < ix.mapWidth && 0 <= ty < ix.mapHeight && ix.grid[ty][tx]
  }

  /** The point lies in the half-open pixel rectangle `[ox, ox+ow) x [oy, oy+oh)` of the object. */
  predicate InsideObject(o: Rect, tileWidth: int, tileHeight: int, x: real, y: real) {
    var ox := o.x * tileWidth as real;
    var oy := o.y * tileHeight as real;
    ox <= x < ox + o.width * tileWidth as real && oy <= y < oy + o.height * tileHeight as real
  }

  predicate ObjectBlocked(ix: CollisionIndex, x: real, y: real) {
    exists j :: 0 <= j < |ix.objects| && InsideObject(ix.objects[j], ix.tileWidth, ix.tileHeight, x, y)
  }

  /** `is_position_collidable(x, y)`. */
  predicate Blocked(ix: CollisionIndex, x: real, y: real)
    requires WellFormed(ix)
  {
    CellBlocked(ix, x, y) || ObjectBlocked(ix, x, y)
  }

  /** The cell check first, then a search over the objects that stops at the first hit. */
  method QueryPoint(ix: CollisionIndex, x: real, y: real) returns (r: bool)
    requires WellFormed(ix)
    ensures r == Blocked(ix, x, y)
  {
    var tileX := TileOf(x, ix.tileWidth);
    var tileY := TileOf(y, ix.tileHeight);
    if 0 <= tileX < ix.mapWidth && 0 <= tileY < ix.mapHeight {
      if ix.grid[tileY][tileX] {
        return true;
      }
    }
    var j := 0;
    while j < |ix.objects|
      invariant 0 <= j <= |ix.objects|
      invariant forall k :: 0 <= k < j ==> !InsideObject(ix.objects[k], ix.tileWidth, ix.tileHeight, x, y)
    {
      var o := ix.objects[j];
      var objX := o.x * ix.tileWidth as real;
      var objY := o.y * ix.tileHeight as real;
      var objWidth := o.width * ix.tileWidth as real;
      var objHeight := o.height * ix.tileHeight as real;
      if objX <= x < objX + objWidth && objY <= y < objY + objHeight {
        return true;
      }
      j := j + 1;
    }
    return false;
  }

  /**
   * Inside the map the object test adds nothing once the grid is built from the
   * same objects: a point inside a rectangle lies in a set cell.
   */
  lemma ObjectPointsAreCellBlocked(ix: CollisionIndex, layers: seq<LayerDoc>, collidable: set<int>,
                                   start: seq<seq<bool>>, x: real, y: real)
    requires WellFormed(ix)
    requires Shaped(start, NatOf(ix.mapWidth), NatOf(ix.mapHeight))
    requires ix.grid == Built(start, layers, collidable, ix.objects, NatOf(ix.mapWidth), NatOf(ix.mapHeight))
    requires 0 <= TileOf(x, ix.tileWidth) < ix.mapWidth && 0 <= TileOf(y, ix.tileHeight) < ix.mapHeight
    ensures Blocked(ix, x, y) <==> CellBlocked(ix, x, y)
  {
    if ObjectBlocked(ix, x, y) {
      var j :| 0 <= j < |ix.objects| && InsideObject(ix.objects[j], ix.tileWidth, ix.tileHeight, x, y);
      ObjectCoversItsPoints(ix.objects[j], ix.tileWidth, ix.tileHeight, NatOf(ix.mapWidth), NatOf(ix.mapHeight), x, y);
    }
  }

  /** Points off the map never read the grid: only the rectangles can block them. */
  lemma OffMapPointsUseObjectsOnly(ix: CollisionIndex, x: real, y: real)
    requires WellFormed(ix)
    requires !(0 <= TileOf(x, ix.tileWidth) < ix.mapWidth && 0 <= TileOf(y, ix.tileHeight) < ix.mapHeight)
    ensures Blocked(ix, x, y) <==> ObjectBlocked(ix, x, y)
  {
  }

  // ------------------------------------------------ the manager

  /** `CollisionManager`: the collision state of one loaded map. */
  class CollisionManager {
    var tileWidth: int
    var tileHeight: int
    var mapWidth: int
    var mapHeight: int
    var collisionMap: seq<seq<bool>>
    var collidableTiles: set<int>
    var collisionObjects: seq<Rect>

    /** The grid is `map_height` rows of `map_width` cells. */
    ghost predicate Valid()
      reads this
    {
      Shaped(collisionMap, NatOf(mapWidth), NatOf(mapHeight))
    }

    /** The fields a point query reads. */
    function Index(): CollisionIndex
      reads this
    {
      CollisionIndex(tileWidth, tileHeight, mapWidth, mapHeight, collisionMap, collisionObjects)
    }

    constructor (tileWidth: int, tileHeight: int, mapWidth: int, mapHeight: int)
      ensures Valid()
      ensures this.tileWidth == tileWidth && this.tileHeight == tileHeight
      ensures this.mapWidth == mapWidth && this.mapHeight == mapHeight
      ensures collisionMap == EmptyGrid(NatOf(mapWidth), NatOf(mapHeight))
      ensures collidableTiles == {} && collisionObjects == []
    {
      this.tileWidth := tileWidth;
      this.tileHeight := tileHeight;
      this.mapWidth := mapWidth;
      this.mapHeight := mapHeight;
      collisionMap := EmptyGrid(NatOf(mapWidth), NatOf(mapHeight));
      collidableTiles := {};
      collisionObjects := [];
    }

    /** `identify_collidable_tiles`: the set only grows, by exactly the tilesets' collidable gids. */
    method IdentifyCollidableTiles(tilesets: map<int, TilesetRecord>)
      modifies this`collidableTiles
      ensures collidableTiles == old(collidableTiles) + CollidableGids(tilesets)
    {
      collidableTiles := MarkCollidable(collidableTiles, tilesets);
    }

    /** `load_collision_objects`: appends the rectangles of the collision layers, in order. */
    method LoadCollisionObjects(layers: seq<LayerDoc>, tileWidth: int, tileHeight: int)
      requires DividesSafely(layers, tileWidth, tileHeight)
      modifies this`collisionObjects
      ensures collisionObjects == old(collisionObjects) + ObjectsFrom(layers, tileWidth, tileHeight)
    {
      collisionObjects := LoadObjects(collisionObjects, layers, tileWidth, tileHeight);
    }

    /** `build_collision_map`: sets the cells the layers and the stored objects mark. */
    method BuildCollisionMap(layers: seq<LayerDoc>)
      requires Valid()
      modifies this`collisionMap
      ensures Valid()
      ensures collisionMap == Built(old(collisionMap), layers, collidableTiles, collisionObjects,
                                    NatOf(mapWidth), NatOf(mapHeight))
    {
      collisionMap := BuildGrid(collisionMap, layers, collidableTiles, collisionObjects,
                                NatOf(mapWidth), NatOf(mapHeight));
    }

    /** `is_tile_collidable`: membership, whatever the position. */
    method IsTileCollidable(gid: int) returns (r: bool)
      ensures r <==> gid in collidableTiles
    {
      r := gid in collidableTiles;
    }

    /** `is_position_collidable`. */
    method IsPositionCollidable(x: real, y: real) returns (r: bool)
      requires Valid() && tileWidth > 0 && tileHeight > 0
      ensures r == Blocked(Index(), x, y)
    {
      r := QueryPoint(Index(), x, y);
    }
  }
}
