// The earlier player of src/player.py: the same input vector, clamp and
// facing as the player of src/entities/player.py, but one whole step per tick
// at a fixed speed of 2, an X move then a Y move each reverted on its own
// (so the player slides along walls), and eight sample points on the full
// sprite box. The animated sprite this version draws with comes from a module
// that is not part of this model.

module LegacyMovement {
  import opened Wrappers
  import opened Numeric
  import opened Assets
  import opened Collision
  import opened Movement

  /** Pixels moved per tick along each unit of the input vector. */
  const LegacySpeed: real := 2.0

  /**
   * The eight sample points of the whole box: the four corners, then the
   * midpoints of the top, right, bottom and left edges.
   */
  function BoxPoints(x: int, y: int, width: int, height: int): (pts: seq<(int, int)>)
    ensures |pts| == 8
  {
    [(x, y), (x + width - 1, y), (x, y + height - 1), (x + width - 1, y + height - 1),
     (x + FloorDiv(width, 2), y), (x + width - 1, y + FloorDiv(height, 2)),
     (x + FloorDiv(width, 2), y + height - 1), (x, y + FloorDiv(height, 2))]
  }

  /** For a non-empty box the first four points are its corners and every point lies in it. */
  lemma BoxPointsInside(x: int, y: int, width: int, height: int)
    requires width > 0 && height > 0
    ensures var pts := BoxPoints(x, y, width, height);
      && pts[..4] == [(x, y), (x + width - 1, y), (x, y + height - 1), (x + width - 1, y + height - 1)]
      && forall p :: p in pts ==> x <= p.0 <= x + width - 1 && y <= p.1 <= y + height - 1
  {
    var pts := BoxPoints(x, y, width, height);
    var hw, hh := FloorDiv(width, 2), FloorDiv(height, 2);
    FloorDivUnique(width, 2, width / 2);
    FloorDivUnique(height, 2, height / 2);
    assert 0 <= hw <= width - 1 && 0 <= hh <= height - 1;
    forall p | p in pts
      ensures x <= p.0 <= x + width - 1 && y <= p.1 <= y + height - 1
    {
    }
  }

  /** The later player samples the same eight points, on the box inset by its margin on every side. */
  lemma InsetPointsAreBoxPoints(x: int, y: int, width: int, height: int)
    ensures CollisionPoints(x, y, width, height)
         == BoxPoints(x + CollisionMargin, y + CollisionMargin, width - 2 * CollisionMargin, height - 2 * CollisionMargin)
  {
  }

  /** `check_collision` of a width x height box at (x, y), by position. */
  function BoxProbe(ix: CollisionIndex, width: int, height: int): (probe: Probe)
    requires WellFormed(ix)
  {
    (x: int, y: int) => Hits(ix, BoxPoints(x, y, width, height))
  }

  /** `check_collision`: the points in order, each given to `is_position_collidable`; the first hit answers. */
  method CheckPoints(ix: CollisionIndex, pts: seq<(int, int)>) returns (hit: bool)
    requires WellFormed(ix)
    ensures hit == Hits(ix, pts)
  {
    var i := 0;
    while i < |pts|
      invariant 0 <= i <= |pts|
      invariant forall k :: 0 <= k < i ==> !Blocked(ix, pts[k].0 as real, pts[k].1 as real)
    {
      var b := QueryPoint(ix, pts[i].0 as real, pts[i].1 as real);
      if b {
        return true;
      }
      i := i + 1;
    }
    return false;
  }

  /**
   * The move towards (nx, ny) with a map: X first, reverted on a hit; then Y
   * at the resulting X, reverted on a hit. Each revert puts back the float and
   * recomputes the integer from it.
   */
  function Slide(probe: Probe, p: Pose, nx: real, ny: real): Pose {
    var xi := Trunc(nx);
    var afterX := if probe(xi, p.y) then Pose(p.fx, p.fy, Trunc(p.fx), p.y) else Pose(nx, p.fy, xi, p.y);
    var yi := Trunc(ny);
    if probe(afterX.x, yi) then Pose(afterX.fx, p.fy, afterX.x, Trunc(p.fy))
    else Pose(afterX.fx, ny, afterX.x, yi)
  }

  /** A pose whose integer position is the truncation of its float position. */
  predicate Settled(p: Pose) {
    p.x == Trunc(p.fx) && p.y == Trunc(p.fy)
  }

  /**
   * The slide never ends inside a wall: from a settled, free position every
   * outcome is settled and free, and each axis either reaches its target or
   * stays where it was.
   */
  lemma {:induction false} SlideStaysFree(probe: Probe, p: Pose, nx: real, ny: real)
    requires Settled(p) && !probe(p.x, p.y)
    ensures var q := Slide(probe, p, nx, ny);
      && Settled(q) && !probe(q.x, q.y)
      && (q.fx == nx || q.fx == p.fx) && (q.fy == ny || q.fy == p.fy)
  {
    var xi := Trunc(nx);
    var afterX := if probe(xi, p.y) then Pose(p.fx, p.fy, Trunc(p.fx), p.y) else Pose(nx, p.fy, xi, p.y);
    assert !probe(afterX.x, p.y);
    assert afterX.x == Trunc(afterX.fx);
  }

  /**
   * Wall sliding: when X is blocked and Y is free at the old X, Y is still
   * taken; when X is free and Y is blocked, X is kept.
   */
  lemma SlideAlongWall(probe: Probe, p: Pose, nx: real, ny: real)
    requires Settled(p)
    ensures probe(Trunc(nx), p.y) && !probe(p.x, Trunc(ny)) ==>
      Slide(probe, p, nx, ny) == Pose(p.fx, ny, p.x, Trunc(ny))
    ensures !probe(Trunc(nx), p.y) && probe(Trunc(nx), Trunc(ny)) ==>
      Slide(probe, p, nx, ny) == Pose(nx, p.fy, Trunc(nx), p.y)
  {
  }

  /**
   * Where the later player's sub-step would not stop, the slide lands on the
   * same pose; where X is blocked, the sub-step stops dead but the slide can
   * still move along Y.
   */
  lemma SlideAgreesWithSubStep(probe: Probe, p: Pose, nx: real, ny: real)
    requires Settled(p)
    ensures !TrySubStep(probe, p, nx, ny).1 ==> Slide(probe, p, nx, ny) == TrySubStep(probe, p, nx, ny).0
    ensures probe(Trunc(nx), p.y) ==> TrySubStep(probe, p, nx, ny).0 == p
  {
  }

  /**
   * Where one tick leaves the player: the clamped target at speed 2, reached
   * by the slide when there is a map to collide with, or taken directly.
   */
  function Stepped(start: Pose, keys: Keys, mapWidth: int, mapHeight: int,
                   width: int, height: int, tilemap: Option<CollisionIndex>): Pose
    requires tilemap.Some? ==> WellFormed(tilemap.value)
  {
    var t := Target(start.fx, start.fy, InputVector(keys), LegacySpeed, mapWidth, mapHeight, width, height);
    match tilemap
    case None => Pose(t.0, t.1, Trunc(t.0), Trunc(t.1))
    case Some(ix) => Slide(BoxProbe(ix, width, height), start, t.0, t.1)
  }

  /** A player standing free on a map stays free after any input. */
  lemma SteppedStaysFree(start: Pose, keys: Keys, mapWidth: int, mapHeight: int,
                         width: int, height: int, ix: CollisionIndex)
    requires WellFormed(ix) && Settled(start) && !Hits(ix, BoxPoints(start.x, start.y, width, height))
    ensures var q := Stepped(start, keys, mapWidth, mapHeight, width, height, Some(ix));
      Settled(q) && !Hits(ix, BoxPoints(q.x, q.y, width, height))
  {
    var t := Target(start.fx, start.fy, InputVector(keys), LegacySpeed, mapWidth, mapHeight, width, height);
    SlideStaysFree(BoxProbe(ix, width, height), start, t.0, t.1);
  }

  /** Without a map the player lands on the target, inside the map when its sizes are set and the sprite fits. */
  lemma SteppedWithoutTilemap(start: Pose, keys: Keys, mapWidth: int, mapHeight: int, width: int, height: int)
    ensures var q := Stepped(start, keys, mapWidth, mapHeight, width, height, None);
      var v := InputVector(keys);
      && Settled(q)
      && (mapWidth > 0 && mapHeight > 0 && width <= mapWidth && height <= mapHeight ==>
            0.0 <= q.fx <= (mapWidth - width) as real && 0.0 <= q.fy <= (mapHeight - height) as real)
      && (!(mapWidth > 0 && mapHeight > 0) ==> q.fx == start.fx + v.0 * 2.0 && q.fy == start.fy + v.1 * 2.0)
  {
    TargetWithinMap(start.fx, start.fy, InputVector(keys), LegacySpeed, mapWidth, mapHeight, width, height);
  }

  /** The player: its position, size, the map bounds, the facing and the moving flag. */
  class Player {
    var x: int
    var y: int
    var floatX: real
    var floatY: real
    const width: int
    const height: int
    const speed: real
    var mapWidth: int
    var mapHeight: int
    var moving: bool
    var direction: string

    /** The speed is the fixed 2 pixels per tick, and the integer position is the float one truncated. */
    ghost predicate Valid()
      reads this
    {
      speed == LegacySpeed && Settled(PoseNow())
    }

    function PoseNow(): Pose
      reads this
    {
      Pose(floatX, floatY, x, y)
    }

    /** Loads the character sheet for the sprite size; a failed load has no size to read. */
    constructor (x: int, y: int, manager: AssetManager, files: Files, mapWidth: int, mapHeight: int)
      requires manager.Valid() && manager.Peek(CharacterTileset, files).Some?
      modifies manager`tilesets
      ensures Valid() && manager.Valid()
      ensures PoseNow() == Pose(x as real, y as real, x, y)
      ensures width == old(manager.Peek(CharacterTileset, files)).value.tilewidth
      ensures height == old(manager.Peek(CharacterTileset, files)).value.tileheight
      ensures this.mapWidth == mapWidth && this.mapHeight == mapHeight
      ensures !moving && direction == "down"
      ensures manager.tilesets == CacheAfter(old(manager.tilesets), manager.basePath, CharacterTileset, files)
    {
      this.x := x;
      this.y := y;
      floatX := x as real;
      floatY := y as real;
      var tileset := manager.LoadTileset(CharacterTileset, files);
      width := tileset.value.tilewidth;
      height := tileset.value.tileheight;
      speed := LegacySpeed;
      this.mapWidth := mapWidth;
      this.mapHeight := mapHeight;
      moving := false;
      direction := "down";
    }

    method SetMapBoundaries(mapWidth: int, mapHeight: int)
      modifies this`mapWidth, this`mapHeight
      ensures this.mapWidth == mapWidth && this.mapHeight == mapHeight
    {
      this.mapWidth := mapWidth;
      this.mapHeight := mapHeight;
    }

    /**
     * One tick: the input vector, the clamped target, the X move and the Y
     * move each checked and reverted on their own (or the target taken
     * directly without a map), the facing and the moving flag.
     */
    method Update(keys: Keys, tilemap: Option<CollisionIndex>)
      requires Valid()
      requires tilemap.Some? ==> WellFormed(tilemap.value)
      modifies this`x, this`y, this`floatX, this`floatY, this`moving, this`direction
      ensures Valid()
      ensures PoseNow() == Stepped(old(PoseNow()), keys, mapWidth, mapHeight, width, height, tilemap)
      ensures direction == Facing(old(direction), InputVector(keys))
      ensures moving <==> x != old(x) || y != old(y)
    {
      var prevX, prevY := x, y;
      var v := InputVector(keys);
      var t := Target(floatX, floatY, v, speed, mapWidth, mapHeight, width, height);
      if tilemap.Some? {
        SlideTo(tilemap.value, t.0, t.1);
      } else {
        floatX, floatY := t.0, t.1;
        x, y := Trunc(floatX), Trunc(floatY);
      }
      direction := Facing(direction, v);
      moving := prevX != x || prevY != y;
    }

    /** The X move, checked and reverted on a hit, then the Y move at the resulting X, likewise. */
    method SlideTo(ix: CollisionIndex, nx: real, ny: real)
      requires WellFormed(ix)
      modifies this`x, this`y, this`floatX, this`floatY
      ensures PoseNow() == Slide(BoxProbe(ix, width, height), old(PoseNow()), nx, ny)
    {
      ghost var probe := BoxProbe(ix, width, height);
      var oldFloatX, oldFloatY := floatX, floatY;
      floatX := nx;
      x := Trunc(floatX);
      var hit := CheckPoints(ix, BoxPoints(x, y, width, height));
      assert hit == probe(x, y);
      if hit {
        floatX := oldFloatX;
        x := Trunc(floatX);
      }
      floatY := ny;
      y := Trunc(floatY);
      hit := CheckPoints(ix, BoxPoints(x, y, width, height));
      assert hit == probe(x, y);
      if hit {
        floatY := oldFloatY;
        y := Trunc(floatY);
      }
    }
  }
}
