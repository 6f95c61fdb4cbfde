/**
 * Animated tiles: a tile of a tileset that plays the clip the asset manager
 * parsed for it, or shows itself when it has none; a character sprite also
 * switches between clips tagged with `direction` and `state` properties.
 */
module Animations {
  import opened Wrappers
  import opened Numeric
  import opened Tiled
  import opened Assets

  // ------------------------------------------------- tile property tags

  /** A tile's `properties` array read into a dict: name (default "") to value (default ""), the last entry winning. */
  function PropertyDict(props: seq<Property>): map<string, string> {
    if props == [] then map[]
    else
      var p := props[|props| - 1];
      PropertyDict(props[..|props| - 1])[p.name.GetOr("") := p.value.GetOr("")]
  }

  /** A name is in the dict exactly when some entry carries it, and it maps to the last such entry's value. */
  lemma {:induction false} PropertyDictLast(props: seq<Property>, name: string)
    ensures name in PropertyDict(props) <==> exists i :: 0 <= i < |props| && props[i].name.GetOr("") == name
    ensures name in PropertyDict(props) ==>
      exists i :: 0 <= i < |props| && props[i].name.GetOr("") == name
        && PropertyDict(props)[name] == props[i].value.GetOr("")
        && forall j :: i < j < |props| ==> props[j].name.GetOr("") != name
  {
    if props != [] {
      var last := |props| - 1;
      var front := props[..last];
      PropertyDictLast(front, name);
      if props[last].name.GetOr("") != name {
        if name in PropertyDict(props) {
          var i :| 0 <= i < |front| && front[i].name.GetOr("") == name
            && PropertyDict(front)[name] == front[i].value.GetOr("")
            && forall j :: i < j < |front| ==> front[j].name.GetOr("") != name;
          assert front[i] == props[i];
          forall j | i < j < |props| ensures props[j].name.GetOr("") != name {
            if j < last {
              assert front[j] == props[j];
            }
          }
        } else {
          forall i | 0 <= i < |props| ensures props[i].name.GetOr("") != name {
            if i < last {
              assert front[i] == props[i];
            }
          }
        }
      }
    }
  }

  /** The `(direction, state)` a tile is tagged with, when both properties are present and non-empty. */
  function TagOf(t: TileDoc): Option<(string, string)> {
    var props := PropertyDict(t.properties.GetOr([]));
    if "direction" in props && props["direction"] != "" && "state" in props && props["state"] != "" then
      Some((props["direction"], props["state"]))
    else None
  }

  /** A tile whose animation is stored under `[direction][state]`. */
  predicate Tagged(t: TileDoc, direction: string, state: string) {
    t.animation.Some? && TagOf(t) == Some((direction, state))
  }

  // ------------------------------------------------ directional clips

  /** Every frame carries `tileid` and `duration`: the directional loader reads both with `[]`. */
  predicate CompleteFrames(frames: seq<FrameDoc>) {
    forall k :: 0 <= k < |frames| ==> frames[k].tileid.Some? && frames[k].duration.Some?
  }

  /** The tagged tiles of a tileset can be read without a missing key. */
  predicate Readable(tiles: seq<TileDoc>) {
    forall i :: 0 <= i < |tiles| && tiles[i].animation.Some? && TagOf(tiles[i]).Some? ==>
      CompleteFrames(tiles[i].animation.value)
  }

  /** The clip of a tagged tile, with no defaults. */
  function TaggedClip(frames: seq<FrameDoc>): (c: Clip)
    requires CompleteFrames(frames)
    ensures WellFormedClip(c) && |c.frames| == |frames|
    ensures forall k :: 0 <= k < |frames| ==>
      c.frames[k] == frames[k].tileid.value && c.durations[k] == frames[k].duration.value / 1000.0
  {
    var durations := seq(|frames|, k requires 0 <= k < |frames| && CompleteFrames(frames) => frames[k].duration.value / 1000.0);
    Clip(seq(|frames|, k requires 0 <= k < |frames| && CompleteFrames(frames) => frames[k].tileid.value), durations, Sum(durations))
  }

  /** The `directional_animations` dict built from a `tiles` array. */
  function DirectionalOf(tiles: seq<TileDoc>): map<string, map<string, Clip>>
    requires Readable(tiles)
  {
    if tiles == [] then map[]
    else
      var front := tiles[..|tiles| - 1];
      assert Readable(front) by {
        forall i | 0 <= i < |front| ensures front[i] == tiles[i] {
        }
      }
      var d := DirectionalOf(front);
      var t := tiles[|tiles| - 1];
      if t.animation.Some? && TagOf(t).Some? then
        var (direction, state) := TagOf(t).value;
        var states := if direction in d then d[direction] else map[];
        d[direction := states[state := TaggedClip(t.animation.value)]]
      else d
  }

  /** Tile i is the last tile tagged with this direction and state. */
  predicate LastTagged(tiles: seq<TileDoc>, direction: string, state: string, i: int) {
    0 <= i < |tiles| && Tagged(tiles[i], direction, state)
    && forall j :: i < j < |tiles| ==> !Tagged(tiles[j], direction, state)
  }

  /**
   * A clip is stored under `[direction][state]` exactly when some tile is
   * tagged with them, and it is the clip of the last such tile.
   */
  lemma {:induction false} DirectionalLookup(tiles: seq<TileDoc>, direction: string, state: string)
    requires Readable(tiles)
    ensures var d := DirectionalOf(tiles);
      (direction in d && state in d[direction]) <==> AnyTagged(tiles, direction, state)
    ensures var d := DirectionalOf(tiles);
      direction in d && state in d[direction] ==>
        exists i :: LastTagged(tiles, direction, state, i) && d[direction][state] == TaggedClip(tiles[i].animation.value)
  {
    if tiles != [] {
      var last := |tiles| - 1;
      var front := tiles[..last];
      UntaggedKeepsEntry(tiles, direction, state);
      DirectionalLookup(front, direction, state);
      var d := DirectionalOf(tiles);
      if Tagged(tiles[last], direction, state) {
        assert LastTagged(tiles, direction, state, last);
      } else if direction in d && state in d[direction] {
        var i :| LastTagged(front, direction, state, i)
          && DirectionalOf(front)[direction][state] == TaggedClip(front[i].animation.value);
        LastTaggedExtends(tiles, direction, state, i);
      } else {
        NoneTaggedExtends(tiles, direction, state);
      }
    }
  }

  /** Some tile is tagged with this direction and state. */
  predicate AnyTagged(tiles: seq<TileDoc>, direction: string, state: string) {
    exists i :: 0 <= i < |tiles| && Tagged(tiles[i], direction, state)
  }

  /** A last tile with another tag leaves the last tile tagged `[direction][state]` in place. */
  lemma LastTaggedExtends(tiles: seq<TileDoc>, direction: string, state: string, i: int)
    requires tiles != [] && !Tagged(tiles[|tiles| - 1], direction, state)
    requires LastTagged(tiles[..|tiles| - 1], direction, state, i)
    ensures LastTagged(tiles, direction, state, i) && tiles[i] == tiles[..|tiles| - 1][i]
  {
    var front := tiles[..|tiles| - 1];
    forall j | i < j < |tiles| ensures !Tagged(tiles[j], direction, state) {
      if j < |front| {
        assert front[j] == tiles[j];
      }
    }
  }

  /** A last tile with another tag keeps "no tile is tagged `[direction][state]`" true. */
  lemma NoneTaggedExtends(tiles: seq<TileDoc>, direction: string, state: string)
    requires tiles != [] && !Tagged(tiles[|tiles| - 1], direction, state)
    requires !AnyTagged(tiles[..|tiles| - 1], direction, state)
    ensures !AnyTagged(tiles, direction, state)
  {
    var front := tiles[..|tiles| - 1];
    forall i | 0 <= i < |tiles| ensures !Tagged(tiles[i], direction, state) {
      if i < |front| {
        assert front[i] == tiles[i];
      }
    }
  }

  /** A last tile not tagged `[direction][state]` leaves that entry as the tiles before it made it. */
  lemma UntaggedKeepsEntry(tiles: seq<TileDoc>, direction: string, state: string)
    requires Readable(tiles) && tiles != []
    ensures Readable(tiles[..|tiles| - 1])
    ensures !Tagged(tiles[|tiles| - 1], direction, state) ==>
      var d, e := DirectionalOf(tiles), DirectionalOf(tiles[..|tiles| - 1]);
      && ((direction in d && state in d[direction]) <==> (direction in e && state in e[direction]))
      && (direction in d && state in d[direction] ==> d[direction][state] == e[direction][state])
  {
    var front := tiles[..|tiles| - 1];
    forall i | 0 <= i < |front| ensures front[i] == tiles[i] {
    }
  }

  /** Every tagged clip has one duration per frame and its sum as total. */
  lemma DirectionalWellFormed(tiles: seq<TileDoc>)
    requires Readable(tiles)
    ensures AllWellFormed(DirectionalOf(tiles))
  {
    forall d, s | d in DirectionalOf(tiles) && s in DirectionalOf(tiles)[d]
      ensures WellFormedClip(DirectionalOf(tiles)[d][s])
    {
      DirectionalLookup(tiles, d, s);
    }
  }

  /** Every clip of a direction/state table has one duration per frame and its sum as total. */
  predicate AllWellFormed(table: map<string, map<string, Clip>>) {
    forall d, s :: d in table && s in table[d] ==> WellFormedClip(table[d][s])
  }

  /** The loop over one tile's `properties`. */
  method BuildPropertyDict(props: seq<Property>) returns (d: map<string, string>)
    ensures d == PropertyDict(props)
  {
    d := map[];
    var i := 0;
    while i < |props|
      invariant 0 <= i <= |props|
      invariant d == PropertyDict(props[..i])
    {
      assert props[..i + 1][..i] == props[..i];
      d := d[props[i].name.GetOr("") := props[i].value.GetOr("")];
      i := i + 1;
    }
    assert props[..|props|] == props;
  }

  /** The loop over a tileset's `tiles` that collects the tagged clips. */
  method BuildDirectional(tiles: seq<TileDoc>) returns (d: map<string, map<string, Clip>>)
    requires Readable(tiles)
    ensures d == DirectionalOf(tiles)
  {
    d := map[];
    var i := 0;
    while i < |tiles|
      invariant 0 <= i <= |tiles|
      invariant Readable(tiles[..i])
      invariant d == DirectionalOf(tiles[..i])
    {
      var t := tiles[i];
      assert tiles[..i + 1][..i] == tiles[..i];
      assert Readable(tiles[..i + 1]) by {
        forall k | 0 <= k <= i ensures tiles[..i + 1][k] == tiles[k] {
        }
      }
      if t.animation.Some? {
        var props := BuildPropertyDict(t.properties.GetOr([]));
        if "direction" in props && props["direction"] != "" && "state" in props && props["state"] != "" {
          var direction, state := props["direction"], props["state"];
          if direction !in d {
            d := d[direction := map[]];
          }
          d := d[direction := d[direction][state := TaggedClip(t.animation.value)]];
        }
      }
      i := i + 1;
    }
    assert tiles[..|tiles|] == tiles;
  }

  // ---------------------------------------------------------- playback

  /**
   * One `update(dt)` of an animated tile: the timer grows by dt, and once it
   * reaches the current frame's duration the frame advances (wrapping) and
   * that duration is taken off the timer. At most one frame per call.
   */
  function Advance(frame: int, timer: real, durations: seq<real>, count: int, dt: real): (r: (int, real))
    requires 0 <= frame < |durations| && count > 0
  {
    var t := timer + dt;
    if t >= durations[frame] then ((frame + 1) % count, t - durations[frame]) else (frame, t)
  }

  /** A run of updates with the given time steps; also counts how many of them moved the frame on. */
  function Run(frame: int, timer: real, durations: seq<real>, dts: seq<real>): (r: (int, real, nat))
    requires 0 <= frame < |durations|
    ensures 0 <= r.0 < |durations|
    decreases |dts|
  {
    if dts == [] then (frame, timer, 0)
    else
      var (f, t) := Advance(frame, timer, durations, |durations|, dts[0]);
      var (f2, t2, n) := Run(f, t, durations, dts[1..]);
      (f2, t2, if f == frame && t == timer + dts[0] then n else n + 1)
  }

  /**
   * Updates never leave the clip, and the frame reached is the start frame
   * moved on by the number of updates that crossed a frame boundary, modulo
   * the clip length, and no update crosses more than one.
   */
  lemma {:induction false} RunCounts(frame: int, timer: real, durations: seq<real>, dts: seq<real>)
    requires 0 <= frame < |durations|
    ensures var (f, _, n) := Run(frame, timer, durations, dts);
      f == (frame + n) % |durations| && n <= |dts|
    decreases |dts|
  {
    if dts != [] {
      var (f, t) := Advance(frame, timer, durations, |durations|, dts[0]);
      RunCounts(f, t, durations, dts[1..]);
      var (f2, t2, n) := Run(f, t, durations, dts[1..]);
      if f == frame && t == timer + dts[0] {
      } else {
        assert f == (frame + 1) % |durations|;
        ModAddOne(frame, n, |durations|);
      }
    }
  }

  lemma ModAddOne(a: int, n: int, m: int)
    requires m > 0
    ensures ((a + 1) % m + n) % m == (a + 1 + n) % m
  {
    var q := (a + 1) / m;
    assert a + 1 == q * m + (a + 1) % m;
    assert (a + 1 + n) == ((a + 1) % m + n) + q * m;
    ModShift((a + 1) % m + n, q, m);
  }

  lemma ModShift(x: int, q: int, m: int)
    requires m > 0
    ensures (x + q * m) % m == x % m
  {
    var y := x + q * m;
    var a := x / m;
    var b := y / m;
    assert x == a * m + x % m;
    assert y == b * m + y % m;
    assert (b - a - q) * m == b * m - a * m - q * m;
    MulBounds(b - a - q, m);
  }

  /** What the sprite shows for a tile: a cut-out of the tileset image, or the magenta placeholder. */
  datatype FrameSurface = Placeholder | Cut(region: Region)

  /** `get_frame_image` for tile `index` of an optional tileset. */
  function FrameImage(record: Option<TilesetRecord>, index: int): (r: FrameSurface)
    requires record.Some? ==> record.value.columns != 0
    ensures r.Placeholder? <==> record.None?
    ensures r.Cut? ==> r.region.width == record.value.tilewidth && r.region.height == record.value.tileheight
  {
    if record.None? then Placeholder
    else
      var (x, y) := SourceOrigin(index, record.value.columns, record.value.tilewidth, record.value.tileheight);
      Cut(Region(x, y, record.value.tilewidth, record.value.tileheight))
  }

  /** The frame an animated tile shows at step k is the k-th frame the asset manager cuts for that clip. */
  lemma FrameImageMatchesCutFrames(record: TilesetRecord, clip: Clip, k: int)
    requires record.columns != 0 && 0 <= k < |clip.frames|
    ensures FrameImage(Some(record), clip.frames[k]) == Cut(FrameRegions(record, clip)[k])
  {
  }

  /** The clip a tile starts with: its own clip if the tileset has one, else the tile alone for one second. */
  datatype Playback = Playback(frames: seq<int>, durations: seq<real>, totalDuration: real, isAnimated: bool)

  function InitialPlayback(record: Option<TilesetRecord>, tileId: int): (p: Playback)
    ensures p.isAnimated <==> record.Some? && Lookup(record.value.animations, ClipName(tileId)).Some?
    ensures p.isAnimated ==> (ClipName(tileId), Clip(p.frames, p.durations, p.totalDuration)) in record.value.animations
    ensures record.Some? && !p.isAnimated ==> p.frames == [tileId] && p.durations == [1.0]
    ensures record.None? ==> p.frames == [] && p.durations == [] && !p.isAnimated
  {
    if record.None? then Playback([], [], 0.0, false)
    else
      match Lookup(record.value.animations, ClipName(tileId))
      case Some(c) => Playback(c.frames, c.durations, c.totalDuration, true)
      case None => Playback([tileId], [1.0], 0.0, false)
  }

  // --------------------------------------------------------------- class

  /** `properties.get(key, default)`. */
  function PropertyOr(properties: map<string, string>, key: string, default: string): string {
    if key in properties then properties[key] else default
  }

  class AnimatedTile {
    const tilesetPath: string
    const tileId: int
    var tilesetData: Option<TilesetRecord>
    var currentFrame: int
    var animationTimer: real
    var frames: seq<int>
    var durations: seq<real>
    var totalDuration: real
    var isAnimated: bool
    var direction: string
    var state: string
    var directionalAnimations: map<string, map<string, Clip>>

    /** The frame index is inside the clip, and every frame has a duration. */
    ghost predicate Valid()
      reads this
    {
      && |frames| == |durations|
      && (frames == [] ==> currentFrame == 0)
      && (frames != [] ==> 0 <= currentFrame < |frames|)
      && AllWellFormed(directionalAnimations)
    }

    /**
     * Loads the tileset through the manager, takes the clip named after the
     * tile or shows the tile itself, and collects the tagged clips.
     */
    constructor (manager: AssetManager, tilesetPath: string, tileId: int, properties: map<string, string>, files: Files)
      requires manager.Valid()
      requires manager.Peek(tilesetPath, files).Some? ==> Readable(manager.Peek(tilesetPath, files).value.tiles)
      modifies manager`tilesets
      ensures Valid() && manager.Valid()
      ensures this.tilesetPath == tilesetPath && this.tileId == tileId
      ensures tilesetData == Loaded(old(manager.tilesets), manager.basePath, tilesetPath, files)
      ensures manager.tilesets == CacheAfter(old(manager.tilesets), manager.basePath, tilesetPath, files)
      ensures currentFrame == 0 && animationTimer == 0.0
      ensures direction == PropertyOr(properties, "direction", "down")
      ensures state == PropertyOr(properties, "state", "idle")
      ensures Playback(frames, durations, totalDuration, isAnimated) == InitialPlayback(tilesetData, tileId)
      ensures directionalAnimations == (if tilesetData.Some? then DirectionalOf(tilesetData.value.tiles) else map[])
    {
      this.tilesetPath := tilesetPath;
      this.tileId := tileId;
      currentFrame := 0;
      animationTimer := 0.0;
      direction := PropertyOr(properties, "direction", "down");
      state := PropertyOr(properties, "state", "idle");
      new;
      var loaded, playback, tagged := LoadClips(manager, tilesetPath, tileId, files);
      tilesetData := loaded;
      frames, durations, totalDuration, isAnimated := playback.frames, playback.durations, playback.totalDuration, playback.isAnimated;
      directionalAnimations := tagged;
    }

    /** The constructor's loading: the tileset, the clip named after the tile, and the tagged clips. */
    static method LoadClips(manager: AssetManager, tilesetPath: string, tileId: int, files: Files)
      returns (loaded: Option<TilesetRecord>, playback: Playback, tagged: map<string, map<string, Clip>>)
      requires manager.Valid()
      requires manager.Peek(tilesetPath, files).Some? ==> Readable(manager.Peek(tilesetPath, files).value.tiles)
      modifies manager`tilesets
      ensures manager.Valid()
      ensures loaded == Loaded(old(manager.tilesets), manager.basePath, tilesetPath, files)
      ensures manager.tilesets == CacheAfter(old(manager.tilesets), manager.basePath, tilesetPath, files)
      ensures playback == InitialPlayback(loaded, tileId) && |playback.frames| == |playback.durations|
      ensures tagged == (if loaded.Some? then DirectionalOf(loaded.value.tiles) else map[])
      ensures AllWellFormed(tagged)
    {
      loaded := manager.LoadTileset(tilesetPath, files);
      playback := Playback([], [], 0.0, false);
      tagged := map[];
      if loaded.Some? {
        var clip := manager.GetAnimation(tilesetPath, Some(ClipName(tileId)), files);
        match clip {
          case Some(c) =>
            playback := Playback(c.frames, c.durations, c.totalDuration, true);
          case None =>
            playback := Playback([tileId], [1.0], 0.0, false);
        }
        tagged := BuildDirectional(loaded.value.tiles);
        DirectionalWellFormed(loaded.value.tiles);
      }
    }

    /** Switches to the clip tagged `[direction][state]` when there is one and it is not already playing. */
    method SetDirectionAndState(direction: string, state: string)
      requires Valid()
      modifies this
      ensures Valid()
      ensures tilesetData == old(tilesetData) && directionalAnimations == old(directionalAnimations)
      ensures var known := direction in directionalAnimations && state in directionalAnimations[direction];
        if known && (direction != old(this.direction) || state != old(this.state)) then
          var c := directionalAnimations[direction][state];
          && this.direction == direction && this.state == state
          && currentFrame == 0 && animationTimer == 0.0 && isAnimated
          && frames == c.frames && durations == c.durations && totalDuration == c.totalDuration
        else
          && this.direction == old(this.direction) && this.state == old(this.state)
          && currentFrame == old(currentFrame) && animationTimer == old(animationTimer)
          && isAnimated == old(isAnimated) && frames == old(frames) && durations == old(durations)
          && totalDuration == old(totalDuration)
    {
      if direction in directionalAnimations && state in directionalAnimations[direction] {
        if direction != this.direction || state != this.state {
          Play(direction, state, directionalAnimations[direction][state]);
        }
      }
    }

    /** Starts clip c from its first frame under the given direction and state. */
    method Play(direction: string, state: string, c: Clip)
      requires Valid() && WellFormedClip(c)
      modifies this`direction, this`state, this`currentFrame, this`animationTimer
      modifies this`frames, this`durations, this`totalDuration, this`isAnimated
      ensures Valid()
      ensures this.direction == direction && this.state == state
      ensures currentFrame == 0 && animationTimer == 0.0 && isAnimated
      ensures frames == c.frames && durations == c.durations && totalDuration == c.totalDuration
    {
      this.direction := direction;
      this.state := state;
      currentFrame := 0;
      animationTimer := 0.0;
      frames := c.frames;
      durations := c.durations;
      totalDuration := c.totalDuration;
      isAnimated := true;
    }

    /** Advances the timer and, at the end of a frame's duration, the frame. */
    method Update(dt: real)
      requires Valid() && (isAnimated ==> frames != [])
      modifies this`animationTimer, this`currentFrame
      ensures Valid()
      ensures !isAnimated ==> currentFrame == old(currentFrame) && animationTimer == old(animationTimer)
      ensures isAnimated ==>
        (currentFrame, animationTimer) == Advance(old(currentFrame), old(animationTimer), durations, |frames|, dt)
    {
      if !isAnimated {
        return;
      }
      animationTimer := animationTimer + dt;
      if animationTimer >= durations[currentFrame] {
        animationTimer := animationTimer - durations[currentFrame];
        currentFrame := (currentFrame + 1) % |frames|;
      }
    }

    /** The tile id on show: the current frame of the clip, or the tile itself when there are no frames. */
    function CurrentFrame(): (r: int)
      requires Valid()
      reads this
      ensures frames == [] ==> r == tileId
      ensures frames != [] ==> r in frames && r == frames[currentFrame]
    {
      if frames == [] then tileId else frames[currentFrame]
    }

    /** The surface on show. */
    function FrameImageNow(): (r: FrameSurface)
      requires Valid() && (tilesetData.Some? ==> tilesetData.value.columns != 0)
      reads this
    {
      FrameImage(tilesetData, CurrentFrame())
    }
  }
}
