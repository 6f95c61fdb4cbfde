// Player movement of src/entities/player.py: the input vector, the clamp to
// the map, the sub-stepped axis moves with revert, the eight-point collision
// sample, the facing rule and the moving flag.

module Movement {
  import opened Wrappers
  import opened Numeric
  import opened Assets
  import opened Collision
  import opened Animations
  import opened Footprints

  /** The character's sprite sheet. */
  const CharacterTileset: string := "data/assets/tilesets/animated/Main_Character/Basic Charakter Spritesheet.tsj"
  /** The collision box is inset this many pixels on every side of the sprite. */
  const CollisionMargin: int := 4
  /** The tile shown before any tagged clip is chosen. */
  const StartTile: int := 14
  /** Both components of a diagonal input are scaled by this factor. */
  const Diagonal: real := 0.7071
  const FootprintSpacing: real := 12.0
  const FootprintLifetime: real := 1.5

  // ---------------------------------------------------------------------
  // Input and facing
  // ---------------------------------------------------------------------

  /** Which of the four movement actions are held (either of its two keys). */
  datatype Keys = Keys(left: bool, right: bool, up: bool, down: bool)

  /** One axis of the raw input: the positive key adds one, the negative key takes one away. */
  function Axis(negative: bool, positive: bool): (a: int)
    ensures -1 <= a <= 1
    ensures a == 1 <==> positive && !negative
    ensures a == -1 <==> negative && !positive
  {
    (if positive then 1 else 0) - (if negative then 1 else 0)
  }

  /** The movement vector: unit steps on one axis, both scaled by 0.7071 on a diagonal. */
  function InputVector(k: Keys): (v: (real, real))
    ensures var ax, ay := Axis(k.left, k.right), Axis(k.up, k.down);
      && (v.0 < 0.0 <==> ax == -1) && (v.0 > 0.0 <==> ax == 1)
      && (v.1 < 0.0 <==> ay == -1) && (v.1 > 0.0 <==> ay == 1)
      && (ax != 0 && ay != 0 ==> Abs(v.0) == Diagonal && Abs(v.1) == Diagonal)
      && (ax == 0 || ay == 0 ==> v == (ax as real, ay as real))
  {
    var dx := Axis(k.left, k.right) as real;
    var dy := Axis(k.up, k.down) as real;
    if dx != 0.0 && dy != 0.0 then (dx * Diagonal, dy * Diagonal) else (dx, dy)
  }

  /** Any non-zero input has length one, to within the rounding of 0.7071. */
  lemma InputVectorLength(k: Keys)
    ensures var v := InputVector(k);
      v != (0.0, 0.0) ==> 0.9999 < v.0 * v.0 + v.1 * v.1 <= 1.0
  {
  }

  /** The facing after an input: the dominant axis wins, ties go vertical, no input keeps it. */
  function Facing(direction: string, v: (real, real)): (d: string)
    ensures d == direction || d == "left" || d == "right" || d == "up" || d == "down"
  {
    if v.0 != 0.0 || v.1 != 0.0 then
      if Abs(v.0) > Abs(v.1) then (if v.0 > 0.0 then "right" else "left")
      else (if v.1 > 0.0 then "down" else "up")
    else direction
  }

  /**
   * Facing in terms of the keys: no net input keeps the old facing, a
   * horizontal facing comes only from purely horizontal input, and a diagonal
   * faces up or down.
   */
  lemma FacingFromKeys(k: Keys, direction: string)
    ensures var ax, ay := Axis(k.left, k.right), Axis(k.up, k.down);
      var d := Facing(direction, InputVector(k));
      && (ax == 0 && ay == 0 ==> d == direction)
      && (ay == 1 ==> d == "down")
      && (ay == -1 ==> d == "up")
      && (ay == 0 && ax == 1 ==> d == "right")
      && (ay == 0 && ax == -1 ==> d == "left")
  {
  }

  // ---------------------------------------------------------------------
  // Target and sub-step count
  // ---------------------------------------------------------------------

  /** `max(0, min(v, extent - size))`. */
  function ClampAxis(v: real, extent: int, size: int): (r: real)
    ensures 0.0 <= r
    ensures extent - size >= 0 ==> r <= (extent - size) as real
    ensures extent - size < 0 ==> r == 0.0
    ensures 0.0 <= v <= (extent - size) as real ==> r == v
    ensures r != v ==> r == 0.0 || r == (extent - size) as real
  {
    MaxR(0.0, MinR(v, (extent - size) as real))
  }

  /** The tentative position: one speed-scaled step, clamped only when both map sizes are known. */
  function Target(fx: real, fy: real, v: (real, real), speed: real,
                  mapWidth: int, mapHeight: int, width: int, height: int): (real, real)
  {
    var nx := fx + v.0 * speed;
    var ny := fy + v.1 * speed;
    if mapWidth > 0 && mapHeight > 0 then (ClampAxis(nx, mapWidth, width), ClampAxis(ny, mapHeight, height))
    else (nx, ny)
  }

  /**
   * With both map sizes set, the target keeps the sprite inside the map (or at
   * 0 when the sprite is wider than the map) and an in-map step is not
   * altered; without them the step is taken as is.
   */
  lemma TargetWithinMap(fx: real, fy: real, v: (real, real), speed: real,
                        mapWidth: int, mapHeight: int, width: int, height: int)
    ensures var t := Target(fx, fy, v, speed, mapWidth, mapHeight, width, height);
      mapWidth > 0 && mapHeight > 0 ==>
        && 0.0 <= t.0 <= Max(0, mapWidth - width) as real
        && 0.0 <= t.1 <= Max(0, mapHeight - height) as real
        && (0.0 <= fx + v.0 * speed <= (mapWidth - width) as real ==> t.0 == fx + v.0 * speed)
        && (0.0 <= fy + v.1 * speed <= (mapHeight - height) as real ==> t.1 == fy + v.1 * speed)
    ensures var t := Target(fx, fy, v, speed, mapWidth, mapHeight, width, height);
      !(mapWidth > 0 && mapHeight > 0) ==> t.0 == fx + v.0 * speed && t.1 == fy + v.1 * speed
  {
  }

  /** `min(speed / 2, 1.0)`: at most a pixel, so that thin walls are not skipped. */
  function StepSize(speed: real): (s: real)
    ensures s <= 1.0
    ensures s == 0.0 <==> speed == 0.0
    ensures speed > 0.0 ==> s > 0.0
  {
    MinR(speed / 2.0, 1.0)
  }

  /** `max(1, int(max(|dx|, |dy|) / step_size))`; a zero speed divides by zero. */
  function StepCount(tdx: real, tdy: real, speed: real): (n: int)
    requires speed != 0.0
    ensures n >= 1
  {
    Max(1, Trunc(MaxR(Abs(tdx), Abs(tdy)) / StepSize(speed)))
  }

  /**
   * For a positive speed the sub-steps cover the longer axis: one more step
   * than counted would pass it, and more than one step never overshoots it.
   */
  lemma StepCountCovers(tdx: real, tdy: real, speed: real)
    requires speed > 0.0
    ensures var n, m, s := StepCount(tdx, tdy, speed), MaxR(Abs(tdx), Abs(tdy)), StepSize(speed);
      && m < (n + 1) as real * s
      && (n > 1 ==> n as real * s <= m)
  {
    var m := MaxR(Abs(tdx), Abs(tdy));
    var s := StepSize(speed);
    var t := Trunc(m / s);
    AboveTimes(m, s, (t + 1) as real);
    if t > 1 {
      BelowTimes(t as real, m, s);
    } else {
      assert (StepCount(tdx, tdy, speed) + 1) as real * s >= (t + 1) as real * s;
    }
  }

  // ---------------------------------------------------------------------
  // Collision sample
  // ---------------------------------------------------------------------

  /**
   * The eight sample points of the collision box inset by the margin: the
   * four corners, then the midpoints of the top, right, bottom and left edges.
   */
  function CollisionPoints(x: int, y: int, width: int, height: int): (pts: seq<(int, int)>)
    ensures |pts| == 8
  {
    var cx := x + CollisionMargin;
    var cy := y + CollisionMargin;
    var cw := width - CollisionMargin * 2;
    var ch := height - CollisionMargin * 2;
    [(cx, cy), (cx + cw - 1, cy), (cx, cy + ch - 1), (cx + cw - 1, cy + ch - 1),
     (cx + FloorDiv(cw, 2), cy), (cx + cw - 1, cy + FloorDiv(ch, 2)),
     (cx + FloorDiv(cw, 2), cy + ch - 1), (cx, cy + FloorDiv(ch, 2))]
  }

  /**
   * For a sprite larger than the two margins, the first four points are the
   * corners of the inset box and every point lies in it.
   */
  lemma PointsInsideBox(x: int, y: int, width: int, height: int)
    requires width > 2 * CollisionMargin && height > 2 * CollisionMargin
    ensures var pts := CollisionPoints(x, y, width, height);
      var left, top := x + CollisionMargin, y + CollisionMargin;
      var right, bottom := x + width - CollisionMargin - 1, y + height - CollisionMargin - 1;
      && pts[..4] == [(left, top), (right, top), (left, bottom), (right, bottom)]
      && forall p :: p in pts ==> left <= p.0 <= right && top <= p.1 <= bottom
  {
  }

  /** `check_collision` with the cell test read from the grid of rows: some sample point is blocked. */
  predicate Hits(ix: CollisionIndex, pts: seq<(int, int)>)
    requires WellFormed(ix)
  {
    exists i :: 0 <= i < |pts| && Blocked(ix, pts[i].0 as real, pts[i].1 as real)
  }

  /**
   * What the broadphase at src/entities/player.py:264-265 tests for the tile
   * (tx, ty): it reads the grid of rows as a flat list, so the "cell" at
   * `ty * map_width + tx` is a whole row, set whenever that index is below
   * the number of rows and the row is not empty.
   */
  predicate FlatIndexSet(ix: CollisionIndex, tx: int, ty: int) {
    && 0 <= tx < ix.mapWidth && 0 <= ty < ix.mapHeight
    && ty * ix.mapWidth + tx < |ix.grid|
    && ix.grid[ty * ix.mapWidth + tx] != []
  }

  /**
   * `check_collision` as written: a point whose tile passes the flat-list test
   * reports a hit, then every point is given to `is_position_collidable`.
   */
  predicate HitsAsWritten(ix: CollisionIndex, pts: seq<(int, int)>)
    requires WellFormed(ix)
  {
    || (exists i :: 0 <= i < |pts| &&
          FlatIndexSet(ix, FloorDiv(pts[i].0, ix.tileWidth), FloorDiv(pts[i].1, ix.tileHeight)))
    || Hits(ix, pts)
  }

  /** As written, every point in the top-left tile of a non-empty map collides. */
  lemma AsWrittenBlocksFirstTile(ix: CollisionIndex, pts: seq<(int, int)>, i: int)
    requires WellFormed(ix) && ix.mapWidth > 0 && ix.mapHeight > 0
    requires 0 <= i < |pts| && 0 <= pts[i].0 < ix.tileWidth && 0 <= pts[i].1 < ix.tileHeight
    ensures HitsAsWritten(ix, pts)
  {
    FloorDivUnique(pts[i].0, ix.tileWidth, 0);
    FloorDivUnique(pts[i].1, ix.tileHeight, 0);
    assert FlatIndexSet(ix, FloorDiv(pts[i].0, ix.tileWidth), FloorDiv(pts[i].1, ix.tileHeight));
  }

  /** A 2x2 map of 16-pixel tiles with nothing collidable. */
  const OpenRoom: CollisionIndex := CollisionIndex(16, 16, 2, 2, [[false, false], [false, false]], [])

  /** A 16x16 player at the origin of an empty room collides as written and not with the grid read by cell. */
  lemma FlatIndexCounterexample()
    ensures WellFormed(OpenRoom)
    ensures HitsAsWritten(OpenRoom, CollisionPoints(0, 0, 16, 16))
    ensures !Hits(OpenRoom, CollisionPoints(0, 0, 16, 16))
  {
    var pts := CollisionPoints(0, 0, 16, 16);
    AsWrittenBlocksFirstTile(OpenRoom, pts, 0);
    forall i | 0 <= i < |pts|
      ensures !Blocked(OpenRoom, pts[i].0 as real, pts[i].1 as real)
    {
      var tx := TileOf(pts[i].0 as real, 16);
      var ty := TileOf(pts[i].1 as real, 16);
      if 0 <= tx < 2 && 0 <= ty < 2 {
        assert !OpenRoom.grid[ty][tx];
      }
    }
  }

  /** Least of a non-empty list, `min(...)`. */
  function Least(xs: seq<int>): int
    requires |xs| > 0
  {
    if |xs| == 1 then xs[0] else Min(xs[0], Least(xs[1..]))
  }

  /** Greatest of a non-empty list, `max(...)`. */
  function Greatest(xs: seq<int>): int
    requires |xs| > 0
  {
    if |xs| == 1 then xs[0] else Max(xs[0], Greatest(xs[1..]))
  }

  function Column(pts: seq<(int, int)>, horizontal: bool): (xs: seq<int>)
    ensures |xs| == |pts|
  {
    seq(|pts|, i requires 0 <= i < |pts| => if horizontal then pts[i].0 else pts[i].1)
  }

  /**
   * `check_collision`: a broadphase over the tiles under the points' bounding
   * box, with a narrowphase over the points in each set cell, then the point
   * query for every point. The cell is read as `grid[ty][tx]`.
   */
  method CheckCollision(ix: CollisionIndex, pts: seq<(int, int)>) returns (hit: bool)
    requires WellFormed(ix) && |pts| > 0
    ensures hit == Hits(ix, pts)
  {
    var minX, minY := Least(Column(pts, true)), Least(Column(pts, false));
    var maxX, maxY := Greatest(Column(pts, true)), Greatest(Column(pts, false));
    var tileY := FloorDiv(minY, ix.tileHeight);
    while tileY < FloorDiv(maxY, ix.tileHeight) + 1
      decreases FloorDiv(maxY, ix.tileHeight) + 1 - tileY
    {
      var tileX := FloorDiv(minX, ix.tileWidth);
      while tileX < FloorDiv(maxX, ix.tileWidth) + 1
        decreases FloorDiv(maxX, ix.tileWidth) + 1 - tileX
      {
        if 0 <= tileX < ix.mapWidth && 0 <= tileY < ix.mapHeight && ix.grid[tileY][tileX] {
          var i := 0;
          while i < |pts|
            invariant 0 <= i <= |pts|
          {
            var (px, py) := pts[i];
            if tileX * ix.tileWidth <= px < (tileX + 1) * ix.tileWidth
              && tileY * ix.tileHeight <= py < (tileY + 1) * ix.tileHeight
            {
              FloorDivUnique(px, ix.tileWidth, tileX);
              FloorDivUnique(py, ix.tileHeight, tileY);
              TileOfWhole(px, ix.tileWidth);
              TileOfWhole(py, ix.tileHeight);
              assert Blocked(ix, pts[i].0 as real, pts[i].1 as real);
              return true;
            }
            i := i + 1;
          }
        }
        tileX := tileX + 1;
      }
      tileY := tileY + 1;
    }
    var i := 0;
    while i < |pts|
      invariant 0 <= i <= |pts|
      invariant forall k :: 0 <= k < i ==> !Blocked(ix, pts[k].0 as real, pts[k].1 as real)
    {
      var b := QueryPoint(ix, pts[i].0 as real, pts[i].1 as real);
      if b {
        return true;
      }
      i := i + 1;
    }
    return false;
  }

  // ---------------------------------------------------------------------
  // Sub-stepping
  // ---------------------------------------------------------------------

  /** The float position and the integer position the collision box is placed at. */
  datatype Pose = Pose(fx: real, fy: real, x: int, y: int)

  /** The player's box at the integer position (x, y) touches something blocked. */
  predicate Collides(ix: CollisionIndex, width: int, height: int, x: int, y: int)
    requires WellFormed(ix)
  {
    Hits(ix, CollisionPoints(x, y, width, height))
  }

  /** A collision test at an integer position. */
  type Probe = (int, int) -> bool

  /** `check_collision` of a width x height player against the index, by position. */
  function PlayerProbe(ix: CollisionIndex, width: int, height: int): (probe: Probe)
    requires WellFormed(ix)
  {
    (x: int, y: int) => Collides(ix, width, height, x, y)
  }

  /**
   * One sub-step towards (nx, ny): X first, reverted on a hit; then Y,
   * reverted on a hit. The flag says that the loop stops here.
   */
  function TrySubStep(probe: Probe, p: Pose, nx: real, ny: real): (r: (Pose, bool))
    ensures !r.1 <==> !probe(Trunc(nx), p.y) && !probe(Trunc(nx), Trunc(ny))
    ensures !r.1 ==> r.0 == Pose(nx, ny, Trunc(nx), Trunc(ny))
    ensures r.1 && probe(Trunc(nx), p.y) ==> r.0 == Pose(p.fx, p.fy, Trunc(p.fx), p.y)
    ensures r.1 && !probe(Trunc(nx), p.y) ==> r.0 == Pose(nx, p.fy, Trunc(nx), Trunc(p.fy))
  {
    var xi := Trunc(nx);
    if probe(xi, p.y) then (Pose(p.fx, p.fy, Trunc(p.fx), p.y), true)
    else
      var yi := Trunc(ny);
      if probe(xi, yi) then (Pose(nx, p.fy, xi, Trunc(p.fy)), true)
      else (Pose(nx, ny, xi, yi), false)
  }

  /**
   * Sub-steps k..steps as written: each target is the last accepted
   * position plus `total * k / steps`, so the offsets accumulate.
   */
  function DriftingWalk(probe: Probe, p: Pose, tdx: real, tdy: real, k: int, steps: int): Pose
    requires 1 <= k && steps >= 1
    decreases steps + 1 - k
  {
    if k > steps then p
    else
      var r := TrySubStep(probe, p, p.fx + tdx * k as real / steps as real, p.fy + tdy * k as real / steps as real);
      if r.1 then r.0 else DriftingWalk(probe, r.0, tdx, tdy, k + 1, steps)
  }

  /**
   * Sub-steps k..steps as intended: the k-th target is the start (sx, sy)
   * plus `total * k / steps`, an even split of the move.
   */
  function EvenWalk(probe: Probe, sx: real, sy: real, p: Pose, tdx: real, tdy: real, k: int, steps: int): Pose
    requires 1 <= k && steps >= 1
    decreases steps + 1 - k
  {
    if k > steps then p
    else
      var r := TrySubStep(probe, p, sx + tdx * k as real / steps as real, sy + tdy * k as real / steps as real);
      if r.1 then r.0 else EvenWalk(probe, sx, sy, r.0, tdx, tdy, k + 1, steps)
  }

  /** Nothing collides, wherever the player stands. */
  ghost predicate Open(probe: Probe) {
    forall x: int, y: int :: !probe(x, y)
  }

  /** `1 + 2 + ... + n`. */
  function Triangle(n: int): real {
    if n <= 0 then 0.0 else Triangle(n - 1) + n as real
  }

  /** Gauss's closed form. */
  lemma {:induction false} TriangleClosed(n: int)
    requires n >= 0
    ensures Triangle(n) == n as real * (n + 1) as real / 2.0
  {
    if n > 0 {
      TriangleClosed(n - 1);
    }
  }

  lemma SplitShare(t: real, a: real, b: real, n: real)
    requires n != 0.0
    ensures t * a / n + t * b / n == t * (a + b) / n
  {
    assert t * (a + b) == t * a + t * b;
  }

  /** One share `t * a / n` added to the sum of the later shares `t * b / n`. */
  lemma ShareStep(t: real, a: real, b: real, whole: real, n: real, d: real, dNext: real)
    requires n != 0.0 && whole == a + b
    requires d == t * a / n + dNext && dNext == t * b / n
    ensures d == t * whole / n
  {
    SplitShare(t, a, b, n);
  }

  /** With nothing in the way a sub-step is taken in full and the loop goes on. */
  lemma OpenStep(probe: Probe, p: Pose, nx: real, ny: real)
    requires Open(probe)
    ensures TrySubStep(probe, p, nx, ny) == (Pose(nx, ny, Trunc(nx), Trunc(ny)), false)
  {
    assert !probe(Trunc(nx), p.y) && !probe(Trunc(nx), Trunc(ny));
  }

  /** The offsets the as-written walk adds from sub-step k on: `t * k / steps + ... + t * steps / steps`. */
  function Drift(t: real, k: int, steps: int): real
    requires 1 <= k && steps >= 1
    decreases steps + 1 - k
  {
    if k > steps then 0.0 else t * k as real / steps as real + Drift(t, k + 1, steps)
  }

  /** `k + (k + 1) + ... + steps`. */
  function Span(k: int, steps: int): real
    decreases steps + 1 - k
  {
    if k > steps then 0.0 else k as real + Span(k + 1, steps)
  }

  /** The span from 1 is Gauss's sum. */
  lemma {:induction false} SpanClosed(k: int, steps: int)
    requires 1 <= k <= steps + 1
    ensures Span(k, steps) == Triangle(steps) - Triangle(k - 1)
    decreases steps + 1 - k
  {
    if k <= steps {
      SpanClosed(k + 1, steps);
    }
  }

  /** The accumulated offsets are t times the span of sub-step numbers, over `steps`. */
  lemma {:induction false} DriftClosed(t: real, k: int, steps: int)
    requires 1 <= k && steps >= 1
    ensures Drift(t, k, steps) == t * Span(k, steps) / steps as real
    decreases steps + 1 - k
  {
    if k <= steps {
      DriftClosed(t, k + 1, steps);
      assert Drift(t, k + 1, steps) == t * Span(k + 1, steps) / steps as real;
      DriftStep(t, k, steps);
    }
  }

  /** One more sub-step keeps the closed form. */
  lemma DriftStep(t: real, k: int, steps: int)
    requires 1 <= k <= steps
    requires Drift(t, k + 1, steps) == t * Span(k + 1, steps) / steps as real
    ensures Drift(t, k, steps) == t * Span(k, steps) / steps as real
  {
    var a, b, n := k as real, Span(k + 1, steps), steps as real;
    ShareStep(t, a, b, Span(k, steps), n, Drift(t, k, steps), Drift(t, k + 1, steps));
  }

  /** Unobstructed, one as-written sub-step is taken in full and the walk goes on from its target. */
  lemma DriftingStepOpen(probe: Probe, p: Pose, tdx: real, tdy: real, k: int, steps: int)
    requires Open(probe) && 1 <= k <= steps
    ensures var nx, ny := p.fx + tdx * k as real / steps as real, p.fy + tdy * k as real / steps as real;
      DriftingWalk(probe, p, tdx, tdy, k, steps)
        == DriftingWalk(probe, Pose(nx, ny, Trunc(nx), Trunc(ny)), tdx, tdy, k + 1, steps)
  {
    OpenStep(probe, p, p.fx + tdx * k as real / steps as real, p.fy + tdy * k as real / steps as real);
  }

  /** Unobstructed, the as-written walk from sub-step k adds the accumulated offsets to each coordinate. */
  lemma {:induction false} DriftingOpen(probe: Probe, p: Pose, tdx: real, tdy: real, k: int, steps: int)
    requires Open(probe) && 1 <= k && steps >= 1
    ensures var q := DriftingWalk(probe, p, tdx, tdy, k, steps);
      q.fx == p.fx + Drift(tdx, k, steps) && q.fy == p.fy + Drift(tdy, k, steps)
    decreases steps + 1 - k
  {
    if k <= steps {
      var shareX, shareY := tdx * k as real / steps as real, tdy * k as real / steps as real;
      var next := Pose(p.fx + shareX, p.fy + shareY, Trunc(p.fx + shareX), Trunc(p.fy + shareY));
      DriftingStepOpen(probe, p, tdx, tdy, k, steps);
      DriftingOpen(probe, next, tdx, tdy, k + 1, steps);
      assert Drift(tdx, k, steps) == shareX + Drift(tdx, k + 1, steps);
      assert Drift(tdy, k, steps) == shareY + Drift(tdy, k + 1, steps);
    }
  }

  /**
   * Unobstructed, the as-written walk over `steps` sub-steps moves
   * `(steps + 1) / 2` times the intended distance, so with two or more
   * sub-steps it never lands on the target of a non-zero move.
   */
  lemma DriftingOvershoots(probe: Probe, p: Pose, tdx: real, tdy: real, steps: int)
    requires Open(probe) && steps >= 1
    ensures var q := DriftingWalk(probe, p, tdx, tdy, 1, steps);
      && q.fx == p.fx + tdx * (steps + 1) as real / 2.0
      && q.fy == p.fy + tdy * (steps + 1) as real / 2.0
      && (steps >= 2 && tdx != 0.0 ==> q.fx != p.fx + tdx)
      && (steps >= 2 && tdy != 0.0 ==> q.fy != p.fy + tdy)
  {
    DriftingOpen(probe, p, tdx, tdy, 1, steps);
    DriftTotal(tdx, steps);
    DriftTotal(tdy, steps);
  }

  /** All the accumulated offsets: `(steps + 1) / 2` times t, which is not t when steps >= 2 and t != 0. */
  lemma DriftTotal(t: real, steps: int)
    requires steps >= 1
    ensures Drift(t, 1, steps) == t * (steps + 1) as real / 2.0
    ensures steps >= 2 && t != 0.0 ==> Drift(t, 1, steps) != t
  {
    DriftClosed(t, 1, steps);
    SpanClosed(1, steps);
    TriangleClosed(steps);
    var n := steps as real;
    assert Triangle(0) == 0.0;
    var h := (n + 1.0) / 2.0;
    assert Triangle(steps) == n * h;
    assert n * h / n == h;
    assert t * Triangle(steps) / n == t * (Triangle(steps) / n);
    if steps >= 2 && t != 0.0 {
      assert t * (n + 1.0) / 2.0 - t == t * (n - 1.0) / 2.0;
      assert (n - 1.0) / 2.0 > 0.0;
    }
  }

  /** `t * n / n == t`. */
  lemma WholeShare(t: real, n: int)
    requires n > 0
    ensures t * n as real / n as real == t
  {
  }

  /** Unobstructed, one even sub-step is taken in full and the walk goes on from its target. */
  lemma EvenStepOpen(probe: Probe, sx: real, sy: real, p: Pose, tdx: real, tdy: real, k: int, steps: int)
    requires Open(probe) && 1 <= k <= steps
    ensures var nx, ny := sx + tdx * k as real / steps as real, sy + tdy * k as real / steps as real;
      EvenWalk(probe, sx, sy, p, tdx, tdy, k, steps)
        == EvenWalk(probe, sx, sy, Pose(nx, ny, Trunc(nx), Trunc(ny)), tdx, tdy, k + 1, steps)
  {
    OpenStep(probe, p, sx + tdx * k as real / steps as real, sy + tdy * k as real / steps as real);
  }

  /** Unobstructed, the even walk lands exactly on the target. */
  lemma {:induction false} EvenOpen(probe: Probe, sx: real, sy: real, p: Pose, tdx: real, tdy: real, k: int, steps: int)
    requires Open(probe) && 1 <= k <= steps
    ensures var q := EvenWalk(probe, sx, sy, p, tdx, tdy, k, steps);
      q.fx == sx + tdx && q.fy == sy + tdy
    decreases steps + 1 - k
  {
    var nx, ny := sx + tdx * k as real / steps as real, sy + tdy * k as real / steps as real;
    var next := Pose(nx, ny, Trunc(nx), Trunc(ny));
    EvenStepOpen(probe, sx, sy, p, tdx, tdy, k, steps);
    if k < steps {
      EvenOpen(probe, sx, sy, next, tdx, tdy, k + 1, steps);
    } else {
      assert EvenWalk(probe, sx, sy, next, tdx, tdy, k + 1, steps) == next;
      WholeShare(tdx, steps);
      WholeShare(tdy, steps);
    }
  }

  /** v lies between a and a + t. */
  predicate OnSegment(v: real, a: real, t: real) {
    MinR(a, a + t) <= v <= MaxR(a, a + t)
  }

  /** `t * k / n` for `0 <= k <= n` lies between 0 and t. */
  lemma ShareBetween(a: real, t: real, k: int, n: int)
    requires 0 <= k <= n && n > 0
    ensures OnSegment(a + t * k as real / n as real, a, t)
  {
    var f := k as real / n as real;
    assert 0.0 <= f <= 1.0;
    assert t * k as real / n as real == t * f;
    if t >= 0.0 {
      assert 0.0 <= t * f <= t * 1.0;
    } else {
      assert t * 1.0 <= t * f <= 0.0;
    }
  }

  /** Obstructed or not, the even walk never leaves the segment from the start to the target. */
  lemma {:induction false} EvenStaysOnSegment(probe: Probe, sx: real, sy: real, p: Pose,
                                              tdx: real, tdy: real, k: int, steps: int)
    requires 1 <= k && steps >= 1
    requires OnSegment(p.fx, sx, tdx) && OnSegment(p.fy, sy, tdy)
    ensures var q := EvenWalk(probe, sx, sy, p, tdx, tdy, k, steps);
      OnSegment(q.fx, sx, tdx) && OnSegment(q.fy, sy, tdy)
    decreases steps + 1 - k
  {
    if k <= steps {
      var nx, ny := sx + tdx * k as real / steps as real, sy + tdy * k as real / steps as real;
      ShareBetween(sx, tdx, k, steps);
      ShareBetween(sy, tdy, k, steps);
      var r := TrySubStep(probe, p, nx, ny);
      assert r.0.fx == p.fx || r.0.fx == nx;
      assert r.0.fy == p.fy || r.0.fy == ny;
      if r.1 {
        assert EvenWalk(probe, sx, sy, p, tdx, tdy, k, steps) == r.0;
      } else {
        assert EvenWalk(probe, sx, sy, p, tdx, tdy, k, steps) == EvenWalk(probe, sx, sy, r.0, tdx, tdy, k + 1, steps);
        EvenStaysOnSegment(probe, sx, sy, r.0, tdx, tdy, k + 1, steps);
      }
    }
  }

  /**
   * The even walk from an in-map start towards a clamped target never leaves
   * the map, obstructed or not.
   */
  lemma EvenWalkStaysInMap(probe: Probe, start: Pose, v: (real, real), speed: real,
                           mapWidth: int, mapHeight: int, width: int, height: int)
    requires speed != 0.0
    requires mapWidth > 0 && mapHeight > 0 && width <= mapWidth && height <= mapHeight
    requires 0.0 <= start.fx <= (mapWidth - width) as real && 0.0 <= start.fy <= (mapHeight - height) as real
    ensures var t := Target(start.fx, start.fy, v, speed, mapWidth, mapHeight, width, height);
      var tdx, tdy := t.0 - start.fx, t.1 - start.fy;
      var q := EvenWalk(probe, start.fx, start.fy, start, tdx, tdy, 1, StepCount(tdx, tdy, speed));
      0.0 <= q.fx <= (mapWidth - width) as real && 0.0 <= q.fy <= (mapHeight - height) as real
  {
    var t := Target(start.fx, start.fy, v, speed, mapWidth, mapHeight, width, height);
    TargetWithinMap(start.fx, start.fy, v, speed, mapWidth, mapHeight, width, height);
    var tdx, tdy := t.0 - start.fx, t.1 - start.fy;
    EvenStaysOnSegment(probe, start.fx, start.fy, start, tdx, tdy, 1, StepCount(tdx, tdy, speed));
  }

  /** A map with no cells and no objects. */
  const Nowhere: CollisionIndex := CollisionIndex(16, 16, 0, 0, [], [])

  lemma NowhereIsOpen(width: int, height: int)
    ensures WellFormed(Nowhere) && Open(PlayerProbe(Nowhere, width, height))
  {
    forall x: int, y: int
      ensures !Collides(Nowhere, width, height, x, y)
    {
    }
  }

  /**
   * A 16-pixel player at x = 142 in a 160-pixel-wide map, speed 2, pressing
   * right: the target is clamped to 144 and split into two sub-steps; as
   * written it ends at 145, past the right edge of the map, and the even split
   * ends at 144.
   */
  lemma OvershootCounterexample()
    ensures WellFormed(Nowhere)
    ensures var v := InputVector(Keys(false, true, false, false));
      var t := Target(142.0, 32.0, v, 2.0, 160, 160, 16, 16);
      var tdx, tdy := t.0 - 142.0, t.1 - 32.0;
      var steps := StepCount(tdx, tdy, 2.0);
      var start := Pose(142.0, 32.0, 142, 32);
      var probe := PlayerProbe(Nowhere, 16, 16);
      && t == (144.0, 32.0) && steps == 2
      && DriftingWalk(probe, start, tdx, tdy, 1, steps).fx == 145.0
      && 145.0 > (160 - 16) as real
      && EvenWalk(probe, 142.0, 32.0, start, tdx, tdy, 1, steps).fx == 144.0
  {
    var start := Pose(142.0, 32.0, 142, 32);
    NowhereIsOpen(16, 16);
    var probe := PlayerProbe(Nowhere, 16, 16);
    assert StepCount(2.0, 0.0, 2.0) == 2;
    DriftingOvershoots(probe, start, 2.0, 0.0, 2);
    EvenOpen(probe, 142.0, 32.0, start, 2.0, 0.0, 1, 2);
  }

  /**
   * One pass of the sub-step loop's body: X moves to stepX and is reverted
   * to the base on a hit, which stops the loop; otherwise Y moves to stepY
   * and is reverted on a hit, which also stops it.
   */
  method Attempt(ix: CollisionIndex, width: int, height: int, p: Pose, stepX: real, stepY: real)
    returns (q: Pose, stop: bool)
    requires WellFormed(ix)
    ensures (q, stop) == TrySubStep(PlayerProbe(ix, width, height), p, stepX, stepY)
  {
    q := p.(fx := stepX, x := Trunc(stepX));
    stop := CheckCollision(ix, CollisionPoints(q.x, q.y, width, height));
    if stop {
      q := q.(fx := p.fx, x := Trunc(p.fx));
      return;
    }
    q := q.(fy := stepY, y := Trunc(stepY));
    stop := CheckCollision(ix, CollisionPoints(q.x, q.y, width, height));
    if stop {
      q := q.(fy := p.fy, y := Trunc(p.fy));
    }
  }

  /**
   * The sub-step loop as written: each pass aims at the base plus
   * `total * step / steps`, and after a clean pass the base becomes the new
   * position; a hit ends the loop.
   */
  method SubSteps(ix: CollisionIndex, width: int, height: int, start: Pose,
                  tdx: real, tdy: real, steps: int) returns (p: Pose)
    requires WellFormed(ix) && steps >= 1
    ensures p == DriftingWalk(PlayerProbe(ix, width, height), start, tdx, tdy, 1, steps)
  {
    ghost var probe := PlayerProbe(ix, width, height);
    ghost var goal := DriftingWalk(probe, start, tdx, tdy, 1, steps);
    p := start;
    var oldFx, oldFy := start.fx, start.fy;
    var step := 1;
    while step <= steps
      invariant 1 <= step <= steps + 1
      invariant oldFx == p.fx && oldFy == p.fy
      invariant DriftingWalk(probe, p, tdx, tdy, step, steps) == goal
      decreases steps + 1 - step
    {
      var stepX := oldFx + tdx * step as real / steps as real;
      var stepY := oldFy + tdy * step as real / steps as real;
      var stop;
      p, stop := Attempt(ix, width, height, p, stepX, stepY);
      if stop {
        return;
      }
      oldFx, oldFy := p.fx, p.fy;
      step := step + 1;
    }
  }

  /**
   * The sub-step loop as intended: each pass aims at the start plus
   * `total * step / steps`, so the passes split the move evenly; a hit ends
   * the loop.
   */
  method EvenSubSteps(ix: CollisionIndex, width: int, height: int, start: Pose,
                      tdx: real, tdy: real, steps: int) returns (p: Pose)
    requires WellFormed(ix) && steps >= 1
    ensures p == EvenWalk(PlayerProbe(ix, width, height), start.fx, start.fy, start, tdx, tdy, 1, steps)
  {
    ghost var probe := PlayerProbe(ix, width, height);
    ghost var goal := EvenWalk(probe, start.fx, start.fy, start, tdx, tdy, 1, steps);
    p := start;
    var step := 1;
    while step <= steps
      invariant 1 <= step <= steps + 1
      invariant EvenWalk(probe, start.fx, start.fy, p, tdx, tdy, step, steps) == goal
      decreases steps + 1 - step
    {
      var stepX := start.fx + tdx * step as real / steps as real;
      var stepY := start.fy + tdy * step as real / steps as real;
      var stop;
      p, stop := Attempt(ix, width, height, p, stepX, stepY);
      if stop {
        return;
      }
      step := step + 1;
    }
  }

  // ---------------------------------------------------------------------
  // One tick of player movement
  // ---------------------------------------------------------------------

  /**
   * Where one tick leaves the player: the clamped target, reached by the
   * sub-step walk as written when there is a map to collide with, or taken
   * directly.
   * A zero speed with a map divides by zero.
   */
  function Moved(start: Pose, keys: Keys, speed: real, mapWidth: int, mapHeight: int,
                 width: int, height: int, tilemap: Option<CollisionIndex>): Pose
    requires tilemap.Some? ==> WellFormed(tilemap.value) && speed != 0.0
  {
    var t := Target(start.fx, start.fy, InputVector(keys), speed, mapWidth, mapHeight, width, height);
    match tilemap
    case None => Pose(t.0, t.1, Trunc(t.0), Trunc(t.1))
    case Some(ix) =>
      var tdx, tdy := t.0 - start.fx, t.1 - start.fy;
      DriftingWalk(PlayerProbe(ix, width, height), start, tdx, tdy, 1, StepCount(tdx, tdy, speed))
  }

  /**
   * The position part of a tick: clamp the step to the map, then walk to it
   * in sub-steps when there is a map to collide with, else take it whole.
   */
  method Move(start: Pose, keys: Keys, speed: real, mapWidth: int, mapHeight: int,
              width: int, height: int, tilemap: Option<CollisionIndex>) returns (p: Pose)
    requires tilemap.Some? ==> WellFormed(tilemap.value) && speed != 0.0
    ensures p == Moved(start, keys, speed, mapWidth, mapHeight, width, height, tilemap)
  {
    var t := Target(start.fx, start.fy, InputVector(keys), speed, mapWidth, mapHeight, width, height);
    match tilemap {
      case Some(ix) =>
        var tdx, tdy := t.0 - start.fx, t.1 - start.fy;
        p := SubSteps(ix, width, height, start, tdx, tdy, StepCount(tdx, tdy, speed));
      case None =>
        p := Pose(t.0, t.1, Trunc(t.0), Trunc(t.1));
    }
  }

  /** Without a map to collide with, the player lands on the target, inside the map when its sizes are set. */
  lemma MovedWithoutTilemap(start: Pose, keys: Keys, speed: real, mapWidth: int, mapHeight: int,
                            width: int, height: int)
    ensures var q := Moved(start, keys, speed, mapWidth, mapHeight, width, height, None);
      var v := InputVector(keys);
      && q.x == Trunc(q.fx) && q.y == Trunc(q.fy)
      && (mapWidth > 0 && mapHeight > 0 && width <= mapWidth && height <= mapHeight ==>
            0.0 <= q.fx <= (mapWidth - width) as real && 0.0 <= q.fy <= (mapHeight - height) as real)
      && (!(mapWidth > 0 && mapHeight > 0) ==> q.fx == start.fx + v.0 * speed && q.fy == start.fy + v.1 * speed)
  {
    TargetWithinMap(start.fx, start.fy, InputVector(keys), speed, mapWidth, mapHeight, width, height);
  }

  /**
   * No wall sliding within a tick: when the first horizontal sub-step hits,
   * the player keeps its float position and Y is never tried.
   */
  lemma BlockedFirstStepStops(start: Pose, keys: Keys, speed: real, mapWidth: int, mapHeight: int,
                              width: int, height: int, ix: CollisionIndex)
    requires WellFormed(ix) && speed != 0.0
    ensures var t := Target(start.fx, start.fy, InputVector(keys), speed, mapWidth, mapHeight, width, height);
      var tdx, tdy := t.0 - start.fx, t.1 - start.fy;
      var steps := StepCount(tdx, tdy, speed);
      Collides(ix, width, height, Trunc(start.fx + tdx * 1.0 / steps as real), start.y) ==>
        Moved(start, keys, speed, mapWidth, mapHeight, width, height, Some(ix))
          == Pose(start.fx, start.fy, Trunc(start.fx), start.y)
  {
  }

  /** A list extended by one element holds the old elements and the new one. */
  lemma ExtendedMembers(a: seq<Footprint>, b: seq<Footprint>)
    requires |b| == |a| + 1 && b[..|a|] == a
    ensures forall f :: f in b <==> f in a || f == b[|a|]
  {
    assert b == a + [b[|a|]];
  }

  /** The sprite's state name: "movement" while moving, "idle" otherwise. */
  function AnimationState(moving: bool): string {
    if moving then "movement" else "idle"
  }

  /** The player: position, facing, the moving flag, its sprite and its footprints. */
  class Player {
    var x: int
    var y: int
    var floatX: real
    var floatY: real
    const width: int
    const height: int
    const speed: real
    var mapWidth: int
    var mapHeight: int
    var moving: bool
    var direction: string
    const sprite: AnimatedTile
    const footprints: FootprintManager

    /** The sprite and footprint trail are consistent, with the player's fixed settings. */
    ghost predicate Valid()
      reads this, sprite, footprints
    {
      && sprite.Valid() && footprints.Valid()
      && footprints.stepDistance == FootprintSpacing && footprints.footprintLifetime == FootprintLifetime
      && sprite.tilesetPath == CharacterTileset && sprite.tileId == StartTile
    }

    /** The sprite can advance: a playing clip has frames, and so has every tagged clip it may switch to. */
    ghost predicate Playable()
      reads this, sprite
    {
      && (sprite.isAnimated ==> sprite.frames != [])
      && forall d, s :: d in sprite.directionalAnimations && s in sprite.directionalAnimations[d] ==>
           sprite.directionalAnimations[d][s].frames != []
    }

    function PoseNow(): Pose
      reads this
    {
      Pose(floatX, floatY, x, y)
    }

    /**
     * Loads the character sheet for the sprite size (a failed load has no
     * size to read), then the footprint trail, then the sprite on tile 14.
     */
    constructor (x: int, y: int, manager: AssetManager, files: Files, playerSpeed: real,
                 mapWidth: int, mapHeight: int)
      requires manager.Valid()
      requires manager.Peek(CharacterTileset, files).Some?
      requires Readable(manager.Peek(CharacterTileset, files).value.tiles)
      modifies manager`tilesets
      ensures Valid() && manager.Valid()
      ensures PoseNow() == Pose(x as real, y as real, x, y)
      ensures width == old(manager.Peek(CharacterTileset, files)).value.tilewidth
      ensures height == old(manager.Peek(CharacterTileset, files)).value.tileheight
      ensures speed == playerSpeed / 300.0
      ensures this.mapWidth == mapWidth && this.mapHeight == mapHeight
      ensures !moving && direction == "down"
      ensures fresh(sprite) && fresh(footprints)
      ensures footprints.footprints == [] && footprints.GaitNow() == Gait(None, true, None)
      ensures manager.tilesets == CacheAfter(old(manager.tilesets), manager.basePath, CharacterTileset, files)
      ensures sprite.tilesetData == old(manager.Peek(CharacterTileset, files))
      ensures sprite.direction == "down" && sprite.state == "idle"
      ensures Playback(sprite.frames, sprite.durations, sprite.totalDuration, sprite.isAnimated)
           == InitialPlayback(sprite.tilesetData, StartTile)
    {
      this.x := x;
      this.y := y;
      floatX := x as real;
      floatY := y as real;
      ghost var cache := manager.tilesets;
      var tileset := manager.LoadTileset(CharacterTileset, files);
      width := tileset.value.tilewidth;
      height := tileset.value.tileheight;
      speed := playerSpeed / 300.0;
      footprints := new FootprintManager(FootprintSpacing, FootprintLifetime);
      this.mapWidth := mapWidth;
      this.mapHeight := mapHeight;
      moving := false;
      direction := "down";
      CacheIsStable(cache, manager.basePath, CharacterTileset, files, files);
      sprite := new AnimatedTile(manager, CharacterTileset, StartTile, map[], files);
      new;
      UpdateAnimationState();
    }

    method SetMapBoundaries(mapWidth: int, mapHeight: int)
      modifies this`mapWidth, this`mapHeight
      ensures this.mapWidth == mapWidth && this.mapHeight == mapHeight
    {
      this.mapWidth := mapWidth;
      this.mapHeight := mapHeight;
    }

    /** Asks the sprite for the clip tagged with the facing and "movement" or "idle". */
    method UpdateAnimationState()
      requires Valid()
      modifies sprite
      ensures Valid()
      ensures old(Playable()) ==> Playable()
      ensures sprite.tilesetData == old(sprite.tilesetData)
      ensures sprite.directionalAnimations == old(sprite.directionalAnimations)
      ensures var st := AnimationState(moving);
        var known := direction in sprite.directionalAnimations && st in sprite.directionalAnimations[direction];
        && (known ==> sprite.direction == direction && sprite.state == st)
        && (known && (direction != old(sprite.direction) || st != old(sprite.state)) ==>
              && sprite.currentFrame == 0 && sprite.animationTimer == 0.0 && sprite.isAnimated
              && sprite.frames == sprite.directionalAnimations[direction][st].frames)
        && (!(known && (direction != old(sprite.direction) || st != old(sprite.state))) ==>
              && sprite.direction == old(sprite.direction) && sprite.state == old(sprite.state)
              && sprite.currentFrame == old(sprite.currentFrame) && sprite.animationTimer == old(sprite.animationTimer)
              && sprite.isAnimated == old(sprite.isAnimated) && sprite.frames == old(sprite.frames)
              && sprite.durations == old(sprite.durations) && sprite.totalDuration == old(sprite.totalDuration))
    {
      sprite.SetDirectionAndState(direction, AnimationState(moving));
    }

    /**
     * One tick: the input vector, the clamped target, the sub-stepped move
     * (or the direct one without a map), the facing, the moving flag, a
     * footprint at the bottom centre while moving, the footprints' ageing,
     * the sprite's clip and its frame advance.
     */
    method Update(keys: Keys, dt: real, tilemap: Option<CollisionIndex>)
      requires Valid() && Playable()
      requires tilemap.Some? ==> WellFormed(tilemap.value) && speed != 0.0
      modifies this`x, this`y, this`floatX, this`floatY, this`moving, this`direction
      modifies sprite, footprints, footprints.footprints
      ensures Valid() && Playable()
      ensures PoseNow() == Moved(old(PoseNow()), keys, speed, mapWidth, mapHeight, width, height, tilemap)
      ensures direction == Facing(old(direction), InputVector(keys))
      ensures moving <==> x != old(x) || y != old(y)
      ensures footprints.GaitNow() ==
        if moving then Step(old(footprints.GaitNow()), FootX(), FootY(), direction, Some(InputVector(keys)), FootprintSpacing).0
        else old(footprints.GaitNow())
      ensures forall f :: f in footprints.footprints ==> f.lifetime > 0.0 && (f in old(footprints.footprints) || fresh(f))
      ensures forall f :: f in old(footprints.footprints) ==> (f in footprints.footprints <==> old(f.lifetime) - dt > 0.0)
      ensures var st := AnimationState(moving);
        var known := direction in sprite.directionalAnimations && st in sprite.directionalAnimations[direction];
        && (known ==> sprite.direction == direction && sprite.state == st)
        && (!known ==> sprite.direction == old(sprite.direction) && sprite.state == old(sprite.state))
    {
      Reposition(keys, tilemap);
      LeaveFootprint(InputVector(keys), dt);
      Animate(dt);
    }

    /** The position, facing and moving flag after one tick's input. */
    method Reposition(keys: Keys, tilemap: Option<CollisionIndex>)
      requires tilemap.Some? ==> WellFormed(tilemap.value) && speed != 0.0
      modifies this`x, this`y, this`floatX, this`floatY, this`moving, this`direction
      ensures PoseNow() == Moved(old(PoseNow()), keys, speed, mapWidth, mapHeight, width, height, tilemap)
      ensures direction == Facing(old(direction), InputVector(keys))
      ensures moving <==> x != old(x) || y != old(y)
    {
      var prevX, prevY := x, y;
      var p := Move(PoseNow(), keys, speed, mapWidth, mapHeight, width, height, tilemap);
      floatX, floatY, x, y := p.fx, p.fy, p.x, p.y;
      direction := Facing(direction, InputVector(keys));
      moving := prevX != x || prevY != y;
    }

    /** Picks the clip for the facing and motion, then advances the sprite's frame. */
    method Animate(dt: real)
      requires Valid() && Playable()
      modifies sprite
      ensures Valid() && Playable()
      ensures var st := AnimationState(moving);
        var known := direction in sprite.directionalAnimations && st in sprite.directionalAnimations[direction];
        && (known ==> sprite.direction == direction && sprite.state == st)
        && (!known ==> sprite.direction == old(sprite.direction) && sprite.state == old(sprite.state))
    {
      UpdateAnimationState();
      sprite.Update(dt);
    }

    /** The footprint's place: the bottom centre of the sprite, two pixels up. */
    function FootX(): real
      reads this
    {
      (x + FloorDiv(width, 2)) as real
    }

    function FootY(): real
      reads this
    {
      (y + height - 2) as real
    }

    /** While moving, offers a footprint to the trail; then ages the trail. */
    method LeaveFootprint(v: (real, real), dt: real)
      requires Valid()
      modifies footprints, footprints.footprints
      ensures Valid()
      ensures footprints.GaitNow() ==
        if moving then Step(old(footprints.GaitNow()), FootX(), FootY(), direction, Some(v), FootprintSpacing).0
        else old(footprints.GaitNow())
      ensures forall f :: f in footprints.footprints ==> f.lifetime > 0.0 && (f in old(footprints.footprints) || fresh(f))
      ensures forall f :: f in old(footprints.footprints) ==> (f in footprints.footprints <==> old(f.lifetime) - dt > 0.0)
    {
      ghost var before := footprints.footprints;
      OfferFootprint(v);
      ghost var offered := footprints.footprints;
      if |offered| != |before| {
        ExtendedMembers(before, offered);
      }
      assert forall f :: f in offered ==> f in before || fresh(f);
      assert forall f :: f in before ==> f in offered && f.lifetime == old(f.lifetime);
      AgeFootprints(dt);
    }

    /** Ages the trail by dt, dropping the footprints whose lifetime ran out. */
    method AgeFootprints(dt: real)
      requires Valid()
      modifies footprints`footprints, footprints.footprints
      ensures Valid() && footprints.GaitNow() == old(footprints.GaitNow())
      ensures forall f :: f in footprints.footprints ==> f.lifetime > 0.0 && f in old(footprints.footprints)
      ensures forall f :: f in old(footprints.footprints) ==> (f in footprints.footprints <==> old(f.lifetime) - dt > 0.0)
    {
      footprints.Update(dt);
    }

    /** While moving, hands the bottom centre to the trail, which may place a footprint there. */
    method OfferFootprint(v: (real, real))
      requires Valid()
      modifies footprints`footprints, footprints`lastFootprintPos, footprints`leftFoot, footprints`lastDirection
      ensures Valid()
      ensures footprints.GaitNow() ==
        if moving then Step(old(footprints.GaitNow()), FootX(), FootY(), direction, Some(v), FootprintSpacing).0
        else old(footprints.GaitNow())
      ensures var n := |old(footprints.footprints)|;
        || footprints.footprints == old(footprints.footprints)
        || (|footprints.footprints| == n + 1 && footprints.footprints[..n] == old(footprints.footprints)
            && fresh(footprints.footprints[n]))
    {
      if moving {
        footprints.AddFootprint(FootX(), FootY(), direction, Some(v));
      }
    }
  }
}
