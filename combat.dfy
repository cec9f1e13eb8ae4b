/**
 * Damage to enemies and to the player, the rocket's area damage, the laser's
 * target choice and the launch of a projectile, as functions on values.
 */
module Combat {
  import opened Base
  import opened Config
  import opened Entities

  /** Every enemy in the registry is alive: a hit to hp <= 0 removes it at once. */
  predicate Alive(es: seq<Enemy>) {
    forall i :: 0 <= i < |es| ==> es[i].hp > 0.0
  }

  // ----- damageEnemy -----

  /**
   * `damageEnemy` applied to the enemy at index `i`: its hp drops by exactly
   * `amount`, with no clamp; at hp <= 0 it leaves the registry and the score
   * rises by its archetype's score; otherwise the registry keeps its size,
   * the score stays, and only that enemy's hp has changed.
   */
  function Hit(a: Arena, i: nat, amount: real): (r: Arena)
    requires i < |a.enemies|
    ensures a.enemies[i].hp - amount <= 0.0 ==>
      |r.enemies| == |a.enemies| - 1 && r.score == a.score + Profile(a.enemies[i].arch).score
    ensures a.enemies[i].hp - amount > 0.0 ==>
      && |r.enemies| == |a.enemies| && r.score == a.score
      && r.enemies[i] == a.enemies[i].(hp := a.enemies[i].hp - amount)
  {
    var e := a.enemies[i];
    if e.hp - amount <= 0.0 then Arena(a.enemies[..i] + a.enemies[i + 1..], a.score + Profile(e.arch).score)
    else Arena(a.enemies[i := e.(hp := e.hp - amount)], a.score)
  }

  /**
   * A hit leaves every other enemy as it was and in its order: those before
   * `i` keep their index, those after move up by one when the target falls.
   */
  lemma HitKeepsOthers(a: Arena, i: nat, amount: real)
    requires i < |a.enemies|
    ensures var r := Hit(a, i, amount);
      && (forall j :: 0 <= j < i ==> r.enemies[j] == a.enemies[j])
      && (a.enemies[i].hp - amount <= 0.0 ==> forall j :: i < j < |a.enemies| ==> r.enemies[j - 1] == a.enemies[j])
      && (a.enemies[i].hp - amount > 0.0 ==> forall j :: i < j < |a.enemies| ==> r.enemies[j] == a.enemies[j])
  {
  }

  /** A hit keeps every enemy of the registry alive. */
  lemma HitKeepsAlive(a: Arena, i: nat, amount: real)
    requires i < |a.enemies| && Alive(a.enemies)
    ensures Alive(Hit(a, i, amount).enemies)
  {
  }

  // ----- area damage -----

  /** The rocket's linear falloff: full damage at the centre, none at the blast radius. */
  function Falloff(damage: real, d: real, radius: real): (r: real)
    requires radius > 0.0
    ensures d == 0.0 ==> r == damage
    ensures 0.0 <= d < radius && damage > 0.0 ==> 0.0 < r <= damage
    ensures d >= radius && damage >= 0.0 ==> r <= 0.0
  {
    var f := 1.0 - d / radius;
    assert 0.0 <= d < radius ==> 0.0 < f <= 1.0;
    assert d >= radius ==> f <= 0.0;
    damage * f
  }

  /** The sweep's effect on one enemy of the snapshot, before removal. */
  function Blast(e: Enemy, center: Vec3, damage: real, radius: real, g: Geometry): Enemy
    requires radius > 0.0
  {
    var d := g.dist(e.pos, center);
    if d < radius then e.(hp := e.hp - Falloff(damage, d, radius)) else e
  }

  /**
   * Every enemy closer than `radius` to the centre loses exactly
   * damage * (1 - d / radius); every other enemy is untouched.
   */
  function BlastAll(es: seq<Enemy>, center: Vec3, damage: real, radius: real, g: Geometry): (r: seq<Enemy>)
    requires radius > 0.0
    ensures |r| == |es|
    ensures forall i :: 0 <= i < |es| && g.dist(es[i].pos, center) < radius ==>
      r[i] == es[i].(hp := es[i].hp - Falloff(damage, g.dist(es[i].pos, center), radius))
    ensures forall i :: 0 <= i < |es| && g.dist(es[i].pos, center) >= radius ==> r[i] == es[i]
  {
    seq(|es|, i requires 0 <= i < |es| => Blast(es[i], center, damage, radius, g))
  }

  /** The enemies whose hp is still positive, in their original order. */
  function Survivors(es: seq<Enemy>): seq<Enemy>
  {
    if es == [] then []
    else Survivors(es[..|es| - 1]) + (if es[|es| - 1].hp > 0.0 then [es[|es| - 1]] else [])
  }

  /** The score paid for the enemies whose hp is at most zero. */
  function Bounty(es: seq<Enemy>): int
  {
    if es == [] then 0
    else Bounty(es[..|es| - 1]) + (if es[|es| - 1].hp <= 0.0 then Profile(es[|es| - 1].arch).score else 0)
  }

  /**
   * An explosion at `center`: the sweep over a snapshot of the registry, each
   * enemy in range damaged once, the fallen removed and paid for.
   */
  function AreaDamage(a: Arena, center: Vec3, damage: real, radius: real, g: Geometry): Arena
    requires radius > 0.0
  {
    var struck := BlastAll(a.enemies, center, damage, radius, g);
    Arena(Survivors(struck), a.score + Bounty(struck))
  }

  /** Removal and payment for one more enemy at the end of the sweep. */
  lemma SurvivorsSnoc(s: seq<Enemy>, x: Enemy)
    ensures Survivors(s + [x]) == Survivors(s) + (if x.hp > 0.0 then [x] else [])
    ensures Bounty(s + [x]) == Bounty(s) + (if x.hp <= 0.0 then Profile(x.arch).score else 0)
  {
    assert (s + [x])[..|s|] == s;
  }

  /** One more enemy of the struck snapshot through the removal step. */
  lemma SweepNext(struck: seq<Enemy>, k: nat)
    requires k < |struck|
    ensures Survivors(struck[..k + 1]) == Survivors(struck[..k]) + (if struck[k].hp > 0.0 then [struck[k]] else [])
    ensures Bounty(struck[..k + 1]) == Bounty(struck[..k]) + (if struck[k].hp <= 0.0 then Profile(struck[k].arch).score else 0)
  {
    assert struck[..k + 1] == struck[..k] + [struck[k]];
    SurvivorsSnoc(struck[..k], struck[k]);
  }

  /** Moving the first enemy of `rest` over to the end of `done`. */
  lemma ShiftOne(done: seq<Enemy>, rest: seq<Enemy>)
    requires |rest| > 0
    ensures done + rest == (done + [rest[0]]) + rest[1..]
  {
  }

  /** A hit on the first enemy after a prefix `done` of the registry. */
  lemma HitAfter(done: seq<Enemy>, rest: seq<Enemy>, score: int, amount: real)
    requires |rest| > 0
    ensures var e := rest[0]; var r := Hit(Arena(done + rest, score), |done|, amount);
      && (e.hp - amount <= 0.0 ==> r == Arena(done + rest[1..], score + Profile(e.arch).score))
      && (e.hp - amount > 0.0 ==> r == Arena(done + [e.(hp := e.hp - amount)] + rest[1..], score))
  {
    var s := done + rest;
    assert s[..|done|] == done;
    assert s[|done| + 1..] == rest[1..];
    assert s[|done|] == rest[0];
  }

  /**
   * The registry and the score part-way through a sweep of `snapshot`: the
   * first `k` struck enemies have been through the removal step, the rest
   * are still as they were.
   */
  ghost function SweepAt(struck: seq<Enemy>, snapshot: seq<Enemy>, k: nat, score0: int): Arena
    requires k <= |struck| && k <= |snapshot|
  {
    Arena(Survivors(struck[..k]) + snapshot[k..], score0 + Bounty(struck[..k]))
  }

  /**
   * Part-way through the sweep, the next snapshot enemy sits right after the
   * survivors so far, still as it was; it adds one to the survivors exactly
   * when it is alive once struck.
   */
  lemma SweepSlot(struck: seq<Enemy>, snapshot: seq<Enemy>, k: nat, score0: int)
    requires |struck| == |snapshot| && k < |snapshot|
    ensures var a := SweepAt(struck, snapshot, k, score0);
      var j := |Survivors(struck[..k])|;
      && j < |a.enemies| && a.enemies[j] == snapshot[k]
      && |Survivors(struck[..k + 1])| == j + (if struck[k].hp > 0.0 then 1 else 0)
  {
    SweepNext(struck, k);
    var done := Survivors(struck[..k]);
    assert (done + snapshot[k..])[|done|] == snapshot[k];
  }

  /**
   * When the next snapshot enemy is struck by `amount`, hitting it at its
   * place in the live registry is the sweep one step further on, and it
   * falls exactly when it falls in the struck snapshot.
   */
  lemma SweepHit(struck: seq<Enemy>, snapshot: seq<Enemy>, k: nat, score0: int, amount: real)
    requires |struck| == |snapshot| && k < |snapshot|
    requires struck[k] == snapshot[k].(hp := snapshot[k].hp - amount)
    ensures var a := SweepAt(struck, snapshot, k, score0);
      var j := |Survivors(struck[..k])|;
      && j < |a.enemies|
      && Hit(a, j, amount) == SweepAt(struck, snapshot, k + 1, score0)
      && (snapshot[k].hp - amount <= 0.0 <==> struck[k].hp <= 0.0)
  {
    SweepNext(struck, k);
    var done := Survivors(struck[..k]);
    var rest := snapshot[k..];
    var paid := score0 + Bounty(struck[..k]);
    assert rest[1..] == snapshot[k + 1..];
    HitAfter(done, rest, paid, amount);
    if struck[k].hp <= 0.0 {
      assert SweepAt(struck, snapshot, k + 1, score0) == Arena(done + rest[1..], paid + Profile(struck[k].arch).score);
    } else {
      assert SweepAt(struck, snapshot, k + 1, score0) == Arena(done + [struck[k]] + rest[1..], paid);
    }
  }

  /**
   * When the next snapshot enemy is out of range and alive, the registry as
   * it stands is already the sweep one step further on.
   */
  lemma SweepMiss(struck: seq<Enemy>, snapshot: seq<Enemy>, k: nat, score0: int)
    requires |struck| == |snapshot| && k < |snapshot|
    requires struck[k] == snapshot[k] && snapshot[k].hp > 0.0
    ensures SweepAt(struck, snapshot, k, score0) == SweepAt(struck, snapshot, k + 1, score0)
  {
    SweepNext(struck, k);
    var rest := snapshot[k..];
    assert rest[1..] == snapshot[k + 1..];
    ShiftOne(Survivors(struck[..k]), rest);
  }

  /** The sweep at its start is the registry as it was; at its end it is the explosion's result. */
  lemma SweepDone(snapshot: seq<Enemy>, score0: int, center: Vec3, damage: real, radius: real, g: Geometry)
    requires radius > 0.0
    ensures var struck := BlastAll(snapshot, center, damage, radius, g);
      && SweepAt(struck, snapshot, 0, score0) == Arena(snapshot, score0)
      && SweepAt(struck, snapshot, |snapshot|, score0) == AreaDamage(Arena(snapshot, score0), center, damage, radius, g)
      && |Survivors(struck[..0])| == 0
  {
    var struck := BlastAll(snapshot, center, damage, radius, g);
    assert struck[..|snapshot|] == struck && snapshot[|snapshot|..] == [];
    assert struck[..0] == [] && snapshot[0..] == snapshot;
  }

  /** An enemy survives the removal step exactly when its hp is positive. */
  lemma {:induction false} SurvivorsMembers(es: seq<Enemy>, x: Enemy)
    ensures x in Survivors(es) <==> x in es && x.hp > 0.0
  {
    if es != [] {
      var n := |es| - 1;
      SurvivorsMembers(es[..n], x);
      assert es == es[..n] + [es[n]];
    }
  }

  /** Removal keeps survivors in order: it distributes over concatenation. */
  lemma {:induction false} SurvivorsAppend(s: seq<Enemy>, t: seq<Enemy>)
    ensures Survivors(s + t) == Survivors(s) + Survivors(t)
    decreases |t|
  {
    if t == [] {
      assert s + t == s;
    } else {
      var n := |t| - 1;
      assert (s + t)[..|s + t| - 1] == s + t[..n];
      SurvivorsAppend(s, t[..n]);
    }
  }

  /** The score rises exactly when some enemy falls, and never falls itself. */
  lemma {:induction false} BountyPaysForFallen(es: seq<Enemy>)
    ensures Bounty(es) >= 0
    ensures |Survivors(es)| <= |es|
    ensures Bounty(es) == 0 <==> |Survivors(es)| == |es|
  {
    if es != [] {
      BountyPaysForFallen(es[..|es| - 1]);
    }
  }

  /** In a registry of live enemies, removal removes nothing. */
  lemma {:induction false} SurvivorsOfAlive(es: seq<Enemy>)
    requires Alive(es)
    ensures Survivors(es) == es && Bounty(es) == 0
  {
    if es != [] {
      var n := |es| - 1;
      SurvivorsOfAlive(es[..n]);
      assert es == es[..n] + [es[n]];
    }
  }

  /**
   * What an explosion does to one enemy of a live registry: out of range it
   * stays as it was; in range it stays with exactly the falloff taken off
   * when that leaves hp positive, and is gone otherwise.
   */
  lemma AreaDamageOn(a: Arena, center: Vec3, damage: real, radius: real, g: Geometry, i: nat)
    requires radius > 0.0 && i < |a.enemies| && Alive(a.enemies)
    ensures var e := a.enemies[i]; var d := g.dist(e.pos, center);
      var r := AreaDamage(a, center, damage, radius, g);
      && (d >= radius ==> e in r.enemies)
      && (d < radius && e.hp - Falloff(damage, d, radius) > 0.0 ==>
            e.(hp := e.hp - Falloff(damage, d, radius)) in r.enemies)
      && (d < radius && e.hp - Falloff(damage, d, radius) <= 0.0 ==>
            e.(hp := e.hp - Falloff(damage, d, radius)) !in r.enemies)
  {
    var struck := BlastAll(a.enemies, center, damage, radius, g);
    SurvivorsMembers(struck, struck[i]);
  }

  /**
   * An explosion keeps every registered enemy alive, never grows the
   * registry and never lowers the score; it changes the score exactly when
   * it removes someone.
   */
  lemma AreaDamageKeeps(a: Arena, center: Vec3, damage: real, radius: real, g: Geometry)
    requires radius > 0.0
    ensures var r := AreaDamage(a, center, damage, radius, g);
      && Alive(r.enemies)
      && |r.enemies| <= |a.enemies|
      && r.score >= a.score
      && (r.score == a.score <==> |r.enemies| == |a.enemies|)
  {
    var struck := BlastAll(a.enemies, center, damage, radius, g);
    BountyPaysForFallen(struck);
    forall j | 0 <= j < |Survivors(struck)|
      ensures Survivors(struck)[j].hp > 0.0
    {
      SurvivorsMembers(struck, Survivors(struck)[j]);
    }
  }

  // ----- player damage -----

  /** `takeDamage`: hp drops by `amount` and is clamped at zero. */
  function Wounded(hp: real, amount: real): (r: real)
    ensures r >= 0.0
    ensures r == 0.0 <==> hp - amount <= 0.0
    ensures r > 0.0 ==> r == hp - amount
  {
    var left := hp - amount;
    if left < 0.0 then 0.0 else left
  }

  /** Two clamped hits of non-negative size are one clamped hit of their sum. */
  lemma WoundedTwice(hp: real, a: real, b: real)
    requires a >= 0.0 && b >= 0.0
    ensures Wounded(Wounded(hp, a), b) == Wounded(hp, a + b)
  {
  }

  // ----- the laser -----

  /**
   * One intersection of the view ray with an enemy's visual, at `distance`.
   * `target` is the index in the registry of the enemy the intersected
   * object refers to; it is `None` when the object carries no such
   * reference, as the planes of an enemy's health bar do (the ray descends
   * into an enemy's child objects).
   */
  datatype RayHit = RayHit(target: Option<nat>, distance: real)

  /**
   * What a hitscan shot touches. `Stray` is a nearest hit in range whose
   * object refers to no enemy: the damage call on it fails before any hp
   * changes, so the shot is spent and nobody is damaged.
   */
  datatype Impact = NoImpact | EnemyImpact(target: nat) | Stray | WorldImpact(distance: real)

  /**
   * The laser's choice: the first (nearest) enemy intersection, if it is
   * within range; the world is consulted only when no enemy was intersected.
   */
  function HitscanImpact(enemyHits: seq<RayHit>, worldHits: seq<real>, range: real): (r: Impact)
    ensures r.EnemyImpact? <==>
      |enemyHits| > 0 && enemyHits[0].distance < range && enemyHits[0].target.Some?
    ensures r.EnemyImpact? ==> r.target == enemyHits[0].target.value
    ensures r.Stray? <==> |enemyHits| > 0 && enemyHits[0].distance < range && enemyHits[0].target.None?
    ensures r.WorldImpact? <==> |enemyHits| == 0 && |worldHits| > 0 && worldHits[0] < range
    ensures r.WorldImpact? ==> r.distance == worldHits[0]
  {
    if |enemyHits| > 0 then
      if enemyHits[0].distance < range then
        match enemyHits[0].target
        case Some(i) => EnemyImpact(i)
        case None => Stray
      else NoImpact
    else if |worldHits| > 0 && worldHits[0] < range then WorldImpact(worldHits[0])
    else NoImpact
  }

  // ----- projectile weapons -----

  /**
   * The projectile a pistol or rocket launches from eye position `eye` along
   * the unit view direction `aim`. The source scales its direction vector in
   * place by 1.5 for the spawn offset and then by the weapon speed, so the
   * velocity is 1.5 times the speed along `aim`.
   */
  function Launch(w: Weapon, eye: Vec3, aim: Vec3): (p: PlayerProjectile)
    requires Arsenal(w).kind != Hitscan
    ensures WellFormed(p) && p.active
    ensures p.kind == Arsenal(w).kind && p.damage == Arsenal(w).damage
    ensures p.gravity.Some? <==> p.kind == Explosive
    ensures p.gravity.Some? ==> p.gravity.value == 15.0
    ensures p.blastRadius == Arsenal(w).blastRadius
    ensures p.pos == Add(eye, Scale(aim, 1.5))
    ensures p.vel == Scale(aim, 1.5 * Arsenal(w).speed.value)
  {
    var s := Arsenal(w);
    var dir := Scale(aim, 1.5);
    PlayerProjectile(
      Add(eye, dir), Scale(dir, s.speed.value), s.kind, s.damage, s.blastRadius,
      if s.kind == Explosive then Some(15.0) else None, true)
  }
}
