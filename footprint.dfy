/**
 * Footprints the player leaves behind: each one sits a little to the side
 * of the step point (left and right feet on opposite sides), is turned to
 * face the direction of travel, and fades out over its lifetime. A manager
 * places a new one whenever the walker is at least a step away from the
 * last, alternating feet, and drops the ones that have faded.
 */
module Footprints {
  import opened Wrappers

  // ---------------------------------------------------- direction tables

  predicate IsMajor(direction: string) {
    direction in {"up", "down", "left", "right"}
  }

  /** The rotation, in degrees, of a footprint for a direction; 0 for an unknown one. */
  function RotationOf(direction: string): int {
    match direction
    case "up" => 180
    case "down" => 0
    case "left" => 90
    case "right" => 270
    case "up_left" => 225
    case "up_right" => 135
    case "down_left" => 315
    case "down_right" => 45
    case _ => 0
  }

  /** The side offset of the right foot for a direction; the left foot takes its negation. */
  function FootOffset(direction: string): (int, int) {
    match direction
    case "up" => (3, 0)
    case "down" => (3, 0)
    case "left" => (0, 3)
    case "right" => (0, 3)
    case "up_left" => (-2, 2)
    case "up_right" => (2, 2)
    case "down_left" => (2, 2)
    case "down_right" => (2, -2)
    case _ => (0, 0)
  }

  /** The unit step of each named direction in screen coordinates (y grows downwards). */
  function Heading(direction: string): Option<(int, int)> {
    match direction
    case "up" => Some((0, -1))
    case "down" => Some((0, 1))
    case "left" => Some((-1, 0))
    case "right" => Some((1, 0))
    case "up_left" => Some((-1, -1))
    case "up_right" => Some((1, -1))
    case "down_left" => Some((-1, 1))
    case "down_right" => Some((1, 1))
    case _ => None
  }

  /**
   * For every direction the game names, the feet are set off sideways
   * (perpendicular to the heading), and the opposite heading is drawn
   * turned by half a turn.
   */
  lemma FootTablesAgreeWithHeading(direction: string, opposite: string)
    requires Heading(direction).Some? && Heading(opposite).Some?
    requires Heading(opposite).value == (-Heading(direction).value.0, -Heading(direction).value.1)
    ensures var (hx, hy) := Heading(direction).value;
      FootOffset(direction).0 * hx + FootOffset(direction).1 * hy == 0
      && FootOffset(direction) != (0, 0)
    ensures (RotationOf(direction) + 180) % 360 == RotationOf(opposite)
  {
  }

  /** The direction a footprint is drawn with: a diagonal when both components of the move are non-zero. */
  function FootprintDirection(direction: string, movement: Option<(real, real)>): (d: string)
    ensures movement.None? || movement.value.0 == 0.0 || movement.value.1 == 0.0 ==> d == direction
    ensures movement.Some? && movement.value.0 != 0.0 && movement.value.1 != 0.0 ==>
      Heading(d) == Some((Sign(movement.value.0), Sign(movement.value.1)))
  {
    match movement
    case None => direction
    case Some((dx, dy)) =>
      if dx != 0.0 && dy != 0.0 then
        if dx < 0.0 && dy < 0.0 then "up_left"
        else if dx > 0.0 && dy < 0.0 then "up_right"
        else if dx < 0.0 && dy > 0.0 then "down_left"
        else "down_right"
      else direction
  }

  function Sign(r: real): int {
    if r < 0.0 then -1 else if r > 0.0 then 1 else 0
  }

  // ------------------------------------------------------------ distance

  /**
   * `sqrt(dx**2 + dy**2) >= step`, decided without a square root: any
   * non-negative step is reached exactly when the squared distance reaches
   * its square, and a negative step always is.
   */
  predicate Reached(from: (real, real), to: (real, real), step: real) {
    var dx := to.0 - from.0;
    var dy := to.1 - from.1;
    step <= 0.0 || dx * dx + dy * dy >= step * step
  }

  /** `Reached` is the comparison of the Euclidean distance with the step. */
  lemma ReachedIsDistance(from: (real, real), to: (real, real), step: real, distance: real)
    requires distance >= 0.0
    requires distance * distance == (to.0 - from.0) * (to.0 - from.0) + (to.1 - from.1) * (to.1 - from.1)
    ensures Reached(from, to, step) <==> distance >= step
  {
    if step > 0.0 {
      assert distance * distance - step * step == (distance - step) * (distance + step);
      SignOfProduct(distance - step, distance + step);
    }
  }

  lemma SignOfProduct(a: real, b: real)
    requires b > 0.0
    ensures a >= 0.0 <==> a * b >= 0.0
  {
    if a < 0.0 {
      assert (-a) * b > 0.0;
    }
  }

  // ---------------------------------------------------------- placement

  /** What the manager remembers between calls: last placed position, next foot, last direction seen. */
  datatype Gait = Gait(lastPos: Option<(real, real)>, leftFoot: bool, lastDirection: Option<string>)

  /** A footprint to place: position before the foot offset, direction, and which foot. */
  datatype Placement = Placement(x: real, y: real, direction: string, leftFoot: bool)

  /** The foot pattern starts over with the left foot on a turn from one major direction to another. */
  function FootAfterTurn(g: Gait, direction: string): bool {
    if g.lastDirection.Some? && direction != g.lastDirection.value && IsMajor(direction) && IsMajor(g.lastDirection.value)
    then true else g.leftFoot
  }

  /** One `add_footprint(x, y, direction, movement)` call: the new gait and the footprint placed, if any. */
  function Step(g: Gait, x: real, y: real, direction: string, movement: Option<(real, real)>, step: real): (r: (Gait, Option<Placement>))
    ensures r.0.lastDirection == Some(FootprintDirection(direction, movement))
    ensures r.1.Some? <==> g.lastPos.None? || Reached(g.lastPos.value, (x, y), step)
    ensures r.1.Some? ==>
      && r.0.lastPos == Some((x, y)) && r.1.value.x == x && r.1.value.y == y
      && r.1.value.direction == FootprintDirection(direction, movement)
      && r.1.value.leftFoot == FootAfterTurn(g, FootprintDirection(direction, movement))
      && r.0.leftFoot == !r.1.value.leftFoot
    ensures r.1.None? ==> r.0.lastPos == g.lastPos && r.0.leftFoot == FootAfterTurn(g, FootprintDirection(direction, movement))
  {
    var d := FootprintDirection(direction, movement);
    var foot := FootAfterTurn(g, d);
    if g.lastPos.None? || Reached(g.lastPos.value, (x, y), step) then
      (Gait(Some((x, y)), !foot, Some(d)), Some(Placement(x, y, d, foot)))
    else (Gait(g.lastPos, foot, Some(d)), None)
  }

  /** One call of the walk. */
  datatype Call = Call(x: real, y: real, direction: string, movement: Option<(real, real)>)

  /** A run of calls: the final gait and the footprints placed, in order. */
  function Walk(g: Gait, calls: seq<Call>, step: real): (Gait, seq<Placement>)
    decreases |calls|
  {
    if calls == [] then (g, [])
    else
      var c := calls[0];
      var r := Step(g, c.x, c.y, c.direction, c.movement, step);
      var rest := Walk(r.0, calls[1..], step);
      (rest.0, (if r.1.Some? then [r.1.value] else []) + rest.1)
  }

  function PosOf(p: Placement): (real, real) { (p.x, p.y) }

  /** After a walk the gait remembers where the last footprint went, or what it remembered before. */
  lemma {:induction false} WalkRemembersLast(g: Gait, calls: seq<Call>, step: real)
    ensures Walk(g, calls, step).1 != [] ==>
      Walk(g, calls, step).0.lastPos == Some(PosOf(Walk(g, calls, step).1[|Walk(g, calls, step).1| - 1]))
    ensures Walk(g, calls, step).1 == [] ==> Walk(g, calls, step).0.lastPos == g.lastPos
    decreases |calls|
  {
    if calls != [] {
      var c := calls[0];
      var r := Step(g, c.x, c.y, c.direction, c.movement, step);
      WalkRemembersLast(r.0, calls[1..], step);
    }
  }

  /**
   * Footprints of a walk are at least a step apart: the first from the
   * position remembered before the walk, each next one from the one before.
   */
  lemma {:induction false} WalkSpacing(g: Gait, calls: seq<Call>, step: real)
    ensures var ps := Walk(g, calls, step).1;
      g.lastPos.Some? && ps != [] ==> Reached(g.lastPos.value, PosOf(ps[0]), step)
    ensures var ps := Walk(g, calls, step).1;
      forall k :: 0 <= k < |ps| - 1 ==> Reached(PosOf(ps[k]), PosOf(ps[k + 1]), step)
    decreases |calls|
  {
    if calls != [] {
      var c := calls[0];
      var r := Step(g, c.x, c.y, c.direction, c.movement, step);
      WalkSpacing(r.0, calls[1..], step);
      var ps := Walk(r.0, calls[1..], step).1;
      if r.1.Some? {
        var all := [r.1.value] + ps;
        assert Walk(g, calls, step).1 == all;
        assert r.0.lastPos == Some(PosOf(r.1.value));
        forall k | 0 <= k < |all| - 1 ensures Reached(PosOf(all[k]), PosOf(all[k + 1]), step) {
          if k > 0 {
            assert all[k] == ps[k - 1] && all[k + 1] == ps[k];
          }
        }
      } else {
        assert Walk(g, calls, step).1 == ps;
      }
    }
  }

  /** Each footprint after the first is on the other foot than the one before it. */
  predicate Alternating(ps: seq<Placement>) {
    forall k :: 0 <= k < |ps| - 1 ==> ps[k + 1].leftFoot == !ps[k].leftFoot
  }

  /** Every call of the run is drawn in direction d. */
  predicate AllHeading(calls: seq<Call>, d: string) {
    forall i :: 0 <= i < |calls| ==> FootprintDirection(calls[i].direction, calls[i].movement) == d
  }

  /**
   * Walking on in one direction, the feet alternate: the first footprint
   * uses the foot the gait holds, and every next one the other foot.
   */
  lemma {:induction false} WalkAlternates(g: Gait, calls: seq<Call>, step: real, d: string)
    requires g.lastDirection.None? || g.lastDirection == Some(d)
    requires AllHeading(calls, d)
    ensures var w := Walk(g, calls, step);
      && (w.1 != [] ==> w.1[0].leftFoot == g.leftFoot)
      && Alternating(w.1)
      && (w.1 != [] ==> w.0.leftFoot == !w.1[|w.1| - 1].leftFoot)
      && (w.1 == [] ==> w.0.leftFoot == g.leftFoot)
    decreases |calls|
  {
    if calls != [] {
      var c := calls[0];
      var r := Step(g, c.x, c.y, c.direction, c.movement, step);
      assert FootprintDirection(c.direction, c.movement) == d;
      SameDirectionStep(g, c, step, d);
      assert AllHeading(calls[1..], d) by {
        forall i | 0 <= i < |calls[1..]|
          ensures FootprintDirection(calls[1..][i].direction, calls[1..][i].movement) == d
        {
          assert calls[1..][i] == calls[i + 1];
        }
      }
      WalkAlternates(r.0, calls[1..], step, d);
      var rest := Walk(r.0, calls[1..], step);
      if r.1.Some? {
        ConsAlternates(r.1.value, rest.1);
        assert Walk(g, calls, step) == (rest.0, [r.1.value] + rest.1);
      } else {
        assert Walk(g, calls, step) == (rest.0, [] + rest.1);
        assert [] + rest.1 == rest.1;
      }
    }
  }

  /** A call in the direction already held keeps the foot pattern: a placed footprint uses the held foot and flips it. */
  lemma SameDirectionStep(g: Gait, c: Call, step: real, d: string)
    requires g.lastDirection.None? || g.lastDirection == Some(d)
    requires FootprintDirection(c.direction, c.movement) == d
    ensures var r := Step(g, c.x, c.y, c.direction, c.movement, step);
      && r.0.lastDirection == Some(d)
      && (r.1.Some? ==> r.1.value.leftFoot == g.leftFoot && r.0.leftFoot == !g.leftFoot)
      && (r.1.None? ==> r.0.leftFoot == g.leftFoot)
  {
  }

  /** Putting a footprint before an alternating run whose first foot is the other one keeps it alternating. */
  lemma ConsAlternates(p: Placement, ps: seq<Placement>)
    requires Alternating(ps) && (ps != [] ==> ps[0].leftFoot == !p.leftFoot)
    ensures Alternating([p] + ps)
    ensures ([p] + ps)[0] == p && ([p] + ps)[|ps|] == (if ps == [] then p else ps[|ps| - 1])
  {
    var all := [p] + ps;
    forall k | 0 <= k < |all| - 1 ensures all[k + 1].leftFoot == !all[k].leftFoot {
      if k > 0 {
        assert all[k] == ps[k - 1] && all[k + 1] == ps[k];
      }
    }
  }

  // ---------------------------------------------------------- footprint

  class Footprint {
    var x: real
    var y: real
    const direction: string
    const isLeftFoot: bool
    var lifetime: real
    const maxLifetime: real
    const rotation: int

    /** A footprint at the step point moved sideways by the foot offset, the left foot to the other side. */
    constructor (x: real, y: real, direction: string, isLeftFoot: bool, lifetime: real)
      ensures this.direction == direction && this.isLeftFoot == isLeftFoot
      ensures this.lifetime == lifetime && maxLifetime == lifetime
      ensures (this.x, this.y) == Placed(x, y, direction, isLeftFoot)
      ensures rotation == RotationOf(direction)
    {
      this.direction := direction;
      this.isLeftFoot := isLeftFoot;
      this.lifetime := lifetime;
      maxLifetime := lifetime;
      rotation := RotationOf(direction);
      var (ox, oy) := FootOffset(direction);
      if isLeftFoot {
        ox, oy := -ox, -oy;
      }
      this.x := x + ox as real;
      this.y := y + oy as real;
    }

    /** Takes dt off the remaining lifetime and tells whether some is left. */
    method Update(dt: real) returns (alive: bool)
      modifies this`lifetime
      ensures lifetime == old(lifetime) - dt
      ensures alive <==> lifetime > 0.0
    {
      lifetime := lifetime - dt;
      alive := lifetime > 0.0;
    }
  }

  /** Where a footprint lands for a step point. */
  function Placed(x: real, y: real, direction: string, leftFoot: bool): (real, real) {
    var (ox, oy) := FootOffset(direction);
    if leftFoot then (x - ox as real, y - oy as real) else (x + ox as real, y + oy as real)
  }

  /** The two feet land symmetrically about the step point. */
  lemma FeetSymmetric(x: real, y: real, direction: string)
    ensures var (lx, ly) := Placed(x, y, direction, true);
      var (rx, ry) := Placed(x, y, direction, false);
      lx + rx == 2.0 * x && ly + ry == 2.0 * y
  {
  }

  /** The footprints among `fps` with lifetime left, in their order. */
  function Alive(fps: seq<Footprint>): (r: seq<Footprint>)
    reads fps
    ensures forall f :: f in r ==> f in fps && f.lifetime > 0.0
    ensures forall f :: f in fps && f.lifetime > 0.0 ==> f in r
  {
    if fps == [] then []
    else
      var front := fps[..|fps| - 1];
      var f := fps[|fps| - 1];
      Alive(front) + (if f.lifetime > 0.0 then [f] else [])
  }

  /** Dropping faded footprints keeps the list free of repeats. */
  lemma {:induction false} AliveDistinct(fps: seq<Footprint>)
    requires Distinct(fps)
    ensures Distinct(Alive(fps))
  {
    if fps != [] {
      var front := fps[..|fps| - 1];
      var f := fps[|fps| - 1];
      assert Distinct(front);
      AliveDistinct(front);
      assert f !in front;
      assert f !in Alive(front);
    }
  }

  predicate Distinct(fps: seq<Footprint>) {
    forall i, j :: 0 <= i < j < |fps| ==> fps[i] != fps[j]
  }

  /** The list comprehension of `update`: each footprint ages as the filter reaches it. */
  method AgeAll(fps: seq<Footprint>, dt: real) returns (kept: seq<Footprint>)
    requires Distinct(fps)
    modifies fps
    ensures forall k :: 0 <= k < |fps| ==> fps[k].lifetime == old(fps[k].lifetime) - dt
    ensures kept == Alive(fps) && Distinct(kept)
  {
    kept := [];
    var i := 0;
    while i < |fps|
      invariant 0 <= i <= |fps|
      invariant forall k :: 0 <= k < i ==> fps[k].lifetime == old(fps[k].lifetime) - dt
      invariant forall k :: i <= k < |fps| ==> fps[k].lifetime == old(fps[k].lifetime)
      invariant kept == Alive(fps[..i])
    {
      kept := AgeNext(fps, i, kept, dt);
      i := i + 1;
    }
    assert fps[..|fps|] == fps;
    AliveDistinct(fps);
  }

  /** One step of the comprehension: the i-th footprint ages and joins the kept ones if it has lifetime left. */
  method AgeNext(fps: seq<Footprint>, i: int, kept: seq<Footprint>, dt: real) returns (next: seq<Footprint>)
    requires 0 <= i < |fps| && Distinct(fps) && kept == Alive(fps[..i])
    modifies fps[i]
    ensures fps[i].lifetime == old(fps[i].lifetime) - dt
    ensures next == Alive(fps[..i + 1])
  {
    var prefix := fps[..i];
    var f := fps[i];
    assert fps[..i + 1] == prefix + [f];
    assert fps[..i + 1][..i] == prefix;
    assert f !in prefix;
    ghost var before := Alive(prefix);
    var alive := f.Update(dt);
    assert Alive(prefix) == before;
    next := if alive then kept + [f] else kept;
  }

  /**
   * The diagonal detection of `add_footprint`, statement by statement: the
   * given direction, overwritten by an `if`/`elif` chain when both
   * components of the move are non-zero. `FootprintDirection` is its
   * specification, and the manager calls this method.
   */
  method DirectionOf(direction: string, movement: Option<(real, real)>) returns (d: string)
    ensures d == FootprintDirection(direction, movement)
  {
    d := direction;
    match movement {
      case Some((dx, dy)) =>
        if dx != 0.0 && dy != 0.0 {
          if dx < 0.0 && dy < 0.0 {
            d := "up_left";
          } else if dx > 0.0 && dy < 0.0 {
            d := "up_right";
          } else if dx < 0.0 && dy > 0.0 {
            d := "down_left";
          } else if dx > 0.0 && dy > 0.0 {
            d := "down_right";
          }
        }
      case None =>
    }
  }

  class FootprintManager {
    var footprints: seq<Footprint>
    const stepDistance: real
    var lastFootprintPos: Option<(real, real)>
    var leftFoot: bool
    const footprintLifetime: real
    var lastDirection: Option<string>

    /** No footprint is listed twice. */
    ghost predicate Valid()
      reads this
    {
      Distinct(footprints)
    }

    function GaitNow(): Gait
      reads this
    {
      Gait(lastFootprintPos, leftFoot, lastDirection)
    }

    /** Loading and scaling the footprint images is not modelled. */
    constructor (stepDistance: real, lifetime: real)
      ensures Valid() && footprints == [] && GaitNow() == Gait(None, true, None)
      ensures this.stepDistance == stepDistance && footprintLifetime == lifetime
    {
      footprints := [];
      this.stepDistance := stepDistance;
      lastFootprintPos := None;
      leftFoot := true;
      footprintLifetime := lifetime;
      lastDirection := None;
    }

    method AddFootprint(x: real, y: real, direction: string, movement: Option<(real, real)>)
      requires Valid()
      modifies this`footprints, this`lastFootprintPos, this`leftFoot, this`lastDirection
      ensures Valid()
      ensures var r := Step(old(GaitNow()), x, y, direction, movement, stepDistance);
        && GaitNow() == r.0
        && (r.1.None? ==> footprints == old(footprints))
        && (r.1.Some? ==>
          && |footprints| == |old(footprints)| + 1
          && footprints[..|old(footprints)|] == old(footprints)
          && var f := footprints[|old(footprints)|];
            fresh(f) && f.direction == r.1.value.direction && f.isLeftFoot == r.1.value.leftFoot
            && (f.x, f.y) == Placed(x, y, r.1.value.direction, r.1.value.leftFoot)
            && f.lifetime == footprintLifetime && f.rotation == RotationOf(r.1.value.direction))
    {
      var d := DirectionOf(direction, movement);
      if lastDirection.Some? && d != lastDirection.value {
        if IsMajor(d) && IsMajor(lastDirection.value) {
          leftFoot := true;
        }
      }
      assert leftFoot == FootAfterTurn(old(GaitNow()), d);
      lastDirection := Some(d);
      if lastFootprintPos.None? || Reached(lastFootprintPos.value, (x, y), stepDistance) {
        var f := new Footprint(x, y, d, leftFoot, footprintLifetime);
        assert f !in footprints;
        footprints := footprints + [f];
        lastFootprintPos := Some((x, y));
        leftFoot := !leftFoot;
      }
    }

    /** Ages every footprint by dt and keeps, in order, those with lifetime left. */
    method Update(dt: real)
      requires Valid()
      modifies this`footprints, footprints
      ensures Valid()
      ensures forall i :: 0 <= i < |old(footprints)| ==> old(footprints)[i].lifetime == old(footprints[i].lifetime) - dt
      ensures footprints == Alive(old(footprints))
      ensures forall f :: f in old(footprints) ==> f.lifetime == old(f.lifetime) - dt
      ensures forall f :: f in footprints <==> f in old(footprints) && f.lifetime > 0.0
    {
      var kept := AgeAll(footprints, dt);
      footprints := kept;
    }
  }
}
