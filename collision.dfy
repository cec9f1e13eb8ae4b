/** The player's box-overlap test against the static obstacles. */
module Collision {
  import opened Base
  import opened Entities

  /** The player's box around the eye position `p`: 1 wide, 1 deep, from 1.5 below to 0.5 above. */
  function PlayerBox(p: Vec3): Box {
    Box(Vec3(p.x - 0.5, p.y - 1.5, p.z - 0.5), Vec3(p.x + 0.5, p.y + 0.5, p.z + 0.5))
  }

  /** Two closed boxes intersect when their intervals meet on every axis (touching counts). */
  predicate Overlap(a: Box, b: Box) {
    && b.max.x >= a.min.x && b.min.x <= a.max.x
    && b.max.y >= a.min.y && b.min.y <= a.max.y
    && b.max.z >= a.min.z && b.min.z <= a.max.z
  }

  predicate Blocks(o: Obstacle, p: Vec3) {
    o.box.Some? && Overlap(PlayerBox(p), o.box.value)
  }

  /**
   * The obstacle scan with early return: true exactly when some obstacle
   * that has a box overlaps the player's box at `p`.
   */
  function Collides(obstacles: seq<Obstacle>, p: Vec3): (r: bool)
    ensures r <==> exists i :: 0 <= i < |obstacles| && Blocks(obstacles[i], p)
  {
    if obstacles == [] then false
    else if Blocks(obstacles[0], p) then true
    else
      var rest := Collides(obstacles[1..], p);
      assert forall i :: 1 <= i < |obstacles| ==> obstacles[i] == obstacles[1..][i - 1];
      rest
  }

  /**
   * One camera-relative move of the player by `d` along `dir`, checked
   * against the obstacles: when the moved box overlaps one, the opposite
   * move is made, which puts the player back exactly where it was. The
   * second component says whether the move was blocked.
   */
  function Step(obstacles: seq<Obstacle>, p: Vec3, dir: Vec3, d: real): (r: (Vec3, bool))
    ensures r.1 == Collides(obstacles, Add(p, Scale(dir, d)))
    ensures r.1 ==> r.0 == p
    ensures !r.1 ==> r.0 == Add(p, Scale(dir, d))
  {
    var moved := Add(p, Scale(dir, d));
    if Collides(obstacles, moved) then (Add(moved, Scale(dir, -d)), true) else (moved, false)
  }

  /**
   * A checked move never ends inside an obstacle that the player was not
   * already inside: starting clear, the player stays clear.
   */
  lemma StepStaysClear(obstacles: seq<Obstacle>, p: Vec3, dir: Vec3, d: real)
    ensures !Collides(obstacles, p) ==> !Collides(obstacles, Step(obstacles, p, dir, d).0)
  {
  }
}
