/** The player's movement: constants, keyboard heading, velocity update and the checked move. */
module Movement {
  import opened Base
  import opened Entities
  import opened Collision

  const PlayerSpeed := 18.0
  const JumpForce := 18.0
  const Gravity := 50.0
  /** The eye height at which the player stands on the floor. */
  const FloorHeight := 2.0

  /** The four movement keys held down. */
  datatype Keys = Keys(forward: bool, backward: bool, left: bool, right: bool)

  function Flag(b: bool): real {
    if b then 1.0 else 0.0
  }

  /**
   * The normalised input direction (x = right - left, z = forward - backward);
   * `invSqrt2` stands for 1/sqrt(2), the component of a diagonal.
   */
  function Heading(k: Keys, invSqrt2: real): (real, real) {
    var x := Flag(k.right) - Flag(k.left);
    var z := Flag(k.forward) - Flag(k.backward);
    if x != 0.0 && z != 0.0 then (x * invSqrt2, z * invSqrt2) else (x, z)
  }

  /**
   * A held direction has length one, no direction is the zero vector, and
   * each component points the way its keys say (opposite keys cancel).
   */
  lemma HeadingSpec(k: Keys, invSqrt2: real)
    requires invSqrt2 > 0.0 && invSqrt2 * invSqrt2 == 0.5
    ensures var h := Heading(k, invSqrt2);
      && (h.0 > 0.0 <==> k.right && !k.left)
      && (h.0 < 0.0 <==> k.left && !k.right)
      && (h.1 > 0.0 <==> k.forward && !k.backward)
      && (h.1 < 0.0 <==> k.backward && !k.forward)
      && (h.0 != 0.0 || h.1 != 0.0 ==> h.0 * h.0 + h.1 * h.1 == 1.0)
      && (h.0 == 0.0 && h.1 == 0.0 <==> Flag(k.right) == Flag(k.left) && Flag(k.forward) == Flag(k.backward))
  {
  }

  /**
   * The velocity after one frame's damping, gravity and key impulse, before
   * any collision: horizontal components decay by 10 * delta of themselves,
   * the vertical one loses Gravity * delta, and a held key pair pushes its
   * axis by the heading times speed, multiplier, delta and 50.
   */
  function Impelled(v: Vec3, delta: real, k: Keys, mult: real, invSqrt2: real): Vec3
  {
    var h := Heading(k, invSqrt2);
    var vx := v.x - v.x * 10.0 * delta;
    var vz := v.z - v.z * 10.0 * delta;
    var vy := v.y - Gravity * delta;
    Vec3(if k.left || k.right then vx - h.0 * PlayerSpeed * mult * delta * 50.0 else vx,
     vy,
     if k.forward || k.backward then vz - h.1 * PlayerSpeed * mult * delta * 50.0 else vz)
  }

  /** How far the player moves along an axis in a frame: minus the velocity component times `delta`. */
  function Travel(speed: real, delta: real): real {
    -speed * delta
  }

  /**
   * The horizontal part of a move from `p` with velocity `v`: the sideways
   * move along `right`, then the forward move along `forward`, each by its
   * `Travel` and each checked; a blocked axis loses its
   * velocity (zeroing x leaves z as it was, so the forward move uses v.z).
   * Yields the position, the velocity and which moves were blocked.
   */
  function Slide(obstacles: seq<Obstacle>, p: Vec3, v: Vec3, delta: real, right: Vec3, forward: Vec3)
    : (Vec3, Vec3, bool, bool)
  {
    var sx := Step(obstacles, p, right, Travel(v.x, delta));
    var sz := Step(obstacles, sx.0, forward, Travel(v.z, delta));
    (sz.0, v.(x := if sx.1 then 0.0 else v.x, z := if sz.1 then 0.0 else v.z), sx.1, sz.1)
  }

  /**
   * The vertical part of a move, unchecked: the player rises or falls by
   * v.y * delta, and below the floor height it is put on the floor with
   * its fall stopped. Yields the position, the velocity and whether it landed.
   */
  function Drop(p: Vec3, v: Vec3, delta: real): (Vec3, Vec3, bool) {
    var y := p.y + v.y * delta;
    if y < FloorHeight then (p.(y := FloorHeight), v.(y := 0.0), true) else (p.(y := y), v, false)
  }

  /** The outcome of a frame's movement. */
  datatype Motion = Motion(pos: Vec3, vel: Vec3, blockedX: bool, blockedZ: bool, landed: bool)

  /** A frame's movement: the velocity update, then the horizontal and the vertical part. */
  function Moved(obstacles: seq<Obstacle>, p: Vec3, v: Vec3, delta: real, k: Keys, mult: real, invSqrt2: real,
                 right: Vec3, forward: Vec3): Motion
  {
    var s := Slide(obstacles, p, Impelled(v, delta, k, mult, invSqrt2), delta, right, forward);
    var d := Drop(s.0, s.1, delta);
    Motion(d.0, d.1, s.2, s.3, d.2)
  }

  /**
   * The horizontal moves are undone when blocked, so they never take a
   * clear player into an obstacle; a blocked move leaves its axis without
   * velocity, and an unblocked one keeps the velocity it had.
   */
  lemma {:induction false} SlideSpec(obstacles: seq<Obstacle>, p: Vec3, v: Vec3, delta: real, right: Vec3, forward: Vec3)
    ensures var s := Slide(obstacles, p, v, delta, right, forward);
      && (!Collides(obstacles, p) ==> !Collides(obstacles, s.0))
      && s.1.y == v.y
      && s.1.x == (if s.2 then 0.0 else v.x)
      && s.1.z == (if s.3 then 0.0 else v.z)
      && (s.2 && s.3 ==> s.0 == p)
  {
    var sx := Step(obstacles, p, right, Travel(v.x, delta));
    StepStaysClear(obstacles, p, right, Travel(v.x, delta));
    StepStaysClear(obstacles, sx.0, forward, Travel(v.z, delta));
  }

  /**
   * After the vertical part the player is never below the floor height; it
   * landed exactly when the free move would have taken it below, and then
   * its vertical velocity is zero; otherwise only the height changed.
   */
  lemma DropSpec(p: Vec3, v: Vec3, delta: real)
    ensures var d := Drop(p, v, delta);
      && d.0.y >= FloorHeight
      && (d.2 <==> p.y + v.y * delta < FloorHeight)
      && (d.2 ==> d.1.y == 0.0)
      && d.0.x == p.x && d.0.z == p.z && d.1.x == v.x && d.1.z == v.z
  {
  }
}
