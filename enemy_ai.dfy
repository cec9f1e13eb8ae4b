/** Enemy behaviour for one frame (steering and attack gating) and the spawner's choices. */
module EnemyAI {
  import opened Base
  import opened Config
  import opened Entities
  import opened Combat

  /** The spawner adds enemies only while fewer than this many are registered. */
  const PopulationCap := 20

  /** A melee enemy also needs to be this close, whatever its attack range. */
  const MeleeReach := 2.0

  /** A ranged or heavy enemy holds position inside 0.7 of its attack range. */
  predicate Holds(e: Enemy, d: real) {
    Profile(e.arch).behavior != Melee && d < Profile(e.arch).attackRange * 0.7
  }

  /** The attack gate: the attack rate has elapsed and the player is in attack range. */
  predicate Ready(e: Enemy, d: real, now: real) {
    now - e.lastAttack > Profile(e.arch).attackRate && d < Profile(e.arch).attackRange
  }

  /** The speed of an enemy projectile: 20 from the heavy archetype, 40 from any other. */
  function BoltSpeed(a: Archetype): (r: real)
    ensures r == 20.0 <==> a == Mech
    ensures r == 40.0 <==> a != Mech
  {
    if Profile(a).behavior == Heavy then 20.0 else 40.0
  }

  /**
   * `shootEnemyProjectile`: from half a unit above the enemy, towards the
   * player's current position (no lead), at speed 40 or, for the heavy
   * archetype, 20, carrying the archetype's damage.
   */
  function Bolt(from: Vec3, to: Vec3, a: Archetype, g: Geometry): (b: EnemyProjectile)
    ensures b.damage == Profile(a).damage && b.damage > 0.0
    ensures b.pos == Vec3(from.x, from.y + 0.5, from.z)
    ensures b.vel == Scale(g.unit(Sub(to, from)), BoltSpeed(a))
  {
    EnemyProjectile(Add(from, Vec3(0.0, 0.5, 0.0)), Scale(g.unit(Sub(to, from)), BoltSpeed(a)), Profile(a).damage)
  }

  /** Where an enemy stands after stepping `delta` seconds' worth of its speed straight at `eye`. */
  function Approach(e: Enemy, eye: Vec3, delta: real, g: Geometry): Vec3 {
    Add(e.pos, Scale(g.unit(Sub(eye, e.pos)), Profile(e.arch).speed * delta))
  }

  /** What an enemy does to the player in its turn. */
  datatype Attack = NoAttack | Strike(amount: real) | Fire(bolt: EnemyProjectile)

  /**
   * One enemy's turn with the player's eye at `eye`: it steps towards the
   * player at its speed unless it holds position; it attacks exactly when the
   * gate is open and, for melee, the player is within reach; melee deals the
   * archetype's damage directly, the others fire one projectile from where
   * they now stand; `lastAttack` becomes `now` exactly when an attack happens.
   */
  function Turn(e: Enemy, eye: Vec3, now: real, delta: real, g: Geometry): (r: (Enemy, Attack))
    ensures r.0 == e.(pos := r.0.pos, lastAttack := r.0.lastAttack)
    ensures Holds(e, g.dist(e.pos, eye)) ==> r.0.pos == e.pos
    ensures !Holds(e, g.dist(e.pos, eye)) ==> r.0.pos == Approach(e, eye, delta, g)
    ensures r.1 != NoAttack <==>
      Ready(e, g.dist(e.pos, eye), now) && (Profile(e.arch).behavior == Melee ==> g.dist(e.pos, eye) < MeleeReach)
    ensures r.0.lastAttack == if r.1 != NoAttack then now else e.lastAttack
    ensures r.1.Strike? <==> r.1 != NoAttack && Profile(e.arch).behavior == Melee
    ensures r.1.Strike? ==> r.1.amount == Profile(e.arch).damage
    ensures r.1.Fire? ==> r.1.bolt == Bolt(r.0.pos, eye, e.arch, g)
  {
    var s := Profile(e.arch);
    var d := g.dist(e.pos, eye);
    var moved := if Holds(e, d) then e else e.(pos := Approach(e, eye, delta, g));
    if Ready(e, d, now) then
      if s.behavior == Melee then
        if d < MeleeReach then (moved.(lastAttack := now), Strike(s.damage)) else (moved, NoAttack)
      else (moved.(lastAttack := now), Fire(Bolt(moved.pos, eye, e.arch, g)))
    else (moved, NoAttack)
  }

  /**
   * The enemy projectiles fired in one pass over `es`, which runs from the
   * last enemy to the first, so the last enemy's projectile comes first.
   */
  function Launches(es: seq<Enemy>, eye: Vec3, now: real, delta: real, g: Geometry): (r: seq<EnemyProjectile>)
    ensures |r| <= |es|
    ensures forall b :: b in r ==> b.damage > 0.0
    ensures (forall i :: 0 <= i < |es| ==> Profile(es[i].arch).behavior == Melee) ==> r == []
    decreases |es|
  {
    if es == [] then []
    else
      var t := Turn(es[0], eye, now, delta, g);
      Launches(es[1..], eye, now, delta, g) + (if t.1.Fire? then [t.1.bolt] else [])
  }

  /** The melee damage dealt to the player in one pass over `es`. */
  function Blows(es: seq<Enemy>, eye: Vec3, now: real, delta: real, g: Geometry): (r: real)
    ensures r >= 0.0
    ensures (forall i :: 0 <= i < |es| ==> Profile(es[i].arch).behavior != Melee) ==> r == 0.0
    decreases |es|
  {
    if es == [] then 0.0
    else
      var t := Turn(es[0], eye, now, delta, g);
      (if t.1.Strike? then t.1.amount else 0.0) + Blows(es[1..], eye, now, delta, g)
  }

  /** Every enemy of `es` after its turn, in place. */
  function Advance(es: seq<Enemy>, eye: Vec3, now: real, delta: real, g: Geometry): (r: seq<Enemy>)
    ensures |r| == |es|
    ensures forall i :: 0 <= i < |es| ==> r[i] == Turn(es[i], eye, now, delta, g).0
  {
    seq(|es|, i requires 0 <= i < |es| => Turn(es[i], eye, now, delta, g).0)
  }

  /**
   * The pass over `es[i..]` is enemy `i`'s turn followed by the pass over
   * `es[i + 1..]`: in the registry where the enemies after `i` have had their
   * turn, enemy `i` is still as it was, and replacing it by its turn's
   * result gives the registry where the enemies from `i` on have had theirs;
   * its projectile follows those of the later enemies and its strike lands
   * after theirs.
   */
  lemma TurnStep(es: seq<Enemy>, i: nat, eye: Vec3, now: real, delta: real, g: Geometry,
                 hp0: real, shots0: seq<EnemyProjectile>)
    requires i < |es|
    ensures var t := Turn(es[i], eye, now, delta, g);
      var before := es[..i + 1] + Advance(es[i + 1..], eye, now, delta, g);
      && |before| == |es| && before[i] == es[i]
      && before[i := t.0] == es[..i] + Advance(es[i..], eye, now, delta, g)
      && shots0 + Launches(es[i + 1..], eye, now, delta, g) + (if t.1.Fire? then [t.1.bolt] else []) ==
         shots0 + Launches(es[i..], eye, now, delta, g)
      && Wounded(Wounded(hp0, Blows(es[i + 1..], eye, now, delta, g)), if t.1.Strike? then t.1.amount else 0.0) ==
         Wounded(hp0, Blows(es[i..], eye, now, delta, g))
  {
    assert es[i..][1..] == es[i + 1..];
    var t := Turn(es[i], eye, now, delta, g);
    var before := es[..i + 1] + Advance(es[i + 1..], eye, now, delta, g);
    var after := es[..i] + Advance(es[i..], eye, now, delta, g);
    assert before[i := t.0] == after;
    var blow := if t.1.Strike? then t.1.amount else 0.0;
    WoundedTwice(hp0, Blows(es[i + 1..], eye, now, delta, g), blow);
  }

  // ----- the spawner -----

  /** The archetype drawn for a random number: below 0.6 a drone, below 0.9 a grunt, else a mech. */
  function Choose(roll: real): (a: Archetype)
    ensures a == Drone <==> roll < 0.6
    ensures a == Grunt <==> 0.6 <= roll < 0.9
    ensures a == Mech <==> 0.9 <= roll
  {
    if roll < 0.6 then Drone else if roll < 0.9 then Grunt else Mech
  }

  /**
   * A new enemy: at full health of its archetype, never having attacked,
   * one unit above its radius at the horizontal spot (`px`, `pz`).
   */
  function Recruit(id: string, roll: real, px: real, pz: real): (e: Enemy)
    ensures e.id == id && e.arch == Choose(roll)
    ensures e.hp == e.maxHp == Profile(e.arch).hp && e.hp > 0.0
    ensures e.lastAttack == 0.0
    ensures e.pos == Vec3(px, Profile(e.arch).radius + 1.0, pz)
  {
    var a := Choose(roll);
    Enemy(id, Profile(a).hp, Profile(a).hp, a, 0.0, Vec3(px, Profile(a).radius + 1.0, pz))
  }
}
