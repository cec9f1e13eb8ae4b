/**
 * The frame-stepped game state and its transitions: firing, damage to
 * enemies and to the player, enemy turns, projectile and particle passes,
 * movement with collision, jumping, spawning, game over and reset.
 */
module Simulation {
  import opened Base
  import opened Config
  import opened Entities
  import opened Collision
  import opened Combat
  import opened Ballistics
  import opened EnemyAI
  import opened Particles
  import opened Movement

  /** What a fire attempt did. */
  datatype ShotOutcome = OnCooldown | Fired(impact: Impact)

  class SimulationState {
    // the player record
    var hp: real
    var maxHp: real
    var score: int
    var weapon: Weapon
    var lastShot: real
    var gameOver: bool
    var canJump: bool
    var velocity: Vec3
    /** The player's eye (camera) position. */
    var position: Vec3
    // the entity registry
    var enemies: seq<Enemy>
    var playerProjectiles: seq<PlayerProjectile>
    var enemyProjectiles: seq<EnemyProjectile>
    var particles: seq<Particle>
    var obstacles: seq<Obstacle>

    /**
     * The state invariant: player hp stays within [0, maxHp], maxHp is the
     * fixed 100, and reaching zero has ended the game; every registered enemy
     * is alive; every player
     * projectile is well formed; enemy projectiles never heal.
     */
    ghost predicate Valid()
      reads this
    {
      && 0.0 <= hp <= maxHp && maxHp == 100.0
      && (hp == 0.0 ==> gameOver)
      && Alive(enemies)
      && (forall i :: 0 <= i < |playerProjectiles| ==> WellFormed(playerProjectiles[i]))
      && (forall i :: 0 <= i < |enemyProjectiles| ==> enemyProjectiles[i].damage >= 0.0)
    }

    /** The registry and the score, as damage to enemies sees them. */
    function Standing(): Arena
      reads this
    {
      Arena(enemies, score)
    }

    /** A new session on a generated level: full health, pistol, standing on the floor at the origin. */
    constructor (level: seq<Obstacle>)
      ensures Valid()
      ensures hp == 100.0 && maxHp == 100.0 && score == 0 && weapon == Pistol && lastShot == 0.0
      ensures !gameOver && !canJump && velocity == Origin && position == Vec3(0.0, FloorHeight, 0.0)
      ensures enemies == [] && playerProjectiles == [] && enemyProjectiles == [] && particles == []
      ensures obstacles == level
    {
      hp, maxHp, score, weapon, lastShot := 100.0, 100.0, 0, Pistol, 0.0;
      gameOver, canJump := false, false;
      velocity, position := Origin, Vec3(0.0, FloorHeight, 0.0);
      enemies, playerProjectiles, enemyProjectiles, particles := [], [], [], [];
      obstacles := level;
    }

    /** A number key switches the weapon; the cooldown clock is not reset. */
    method SelectWeapon(key: int)
      modifies this`weapon
      ensures weapon == if SlotWeapon(key).Some? then SlotWeapon(key).value else old(weapon)
    {
      if key == 1 {
        weapon := Pistol;
      } else if key == 2 {
        weapon := Laser;
      } else if key == 3 {
        weapon := Rocket;
      }
    }

    /** The game-over latch. */
    method GameOver()
      modifies this`gameOver
      ensures gameOver
    {
      gameOver := true;
    }

    /**
     * `takeDamage`: hp drops by `amount`, clamped at zero; the game-over
     * transition runs exactly when hp is at most zero and the game was not
     * already over, and the latch then stays set.
     */
    method TakeDamage(amount: real) returns (fatal: bool)
      requires Valid() && amount >= 0.0
      modifies this`hp, this`gameOver
      ensures Valid()
      ensures hp == Wounded(old(hp), amount)
      ensures fatal == (hp <= 0.0 && !old(gameOver))
      ensures gameOver == (old(gameOver) || hp <= 0.0)
    {
      hp := hp - amount;
      if hp < 0.0 {
        hp := 0.0;
      }
      fatal := hp <= 0.0 && !gameOver;
      if fatal {
        GameOver();
      }
    }

    /**
     * `resetGame`: full health, no score, the pistol, empty enemy and
     * projectile lists, the latch cleared and the player back at the origin;
     * particles, the cooldown clock, the velocity and the jump flag stay.
     */
    method ResetGame()
      requires Valid()
      modifies this`hp, this`score, this`weapon, this`enemies, this`playerProjectiles, this`enemyProjectiles,
        this`gameOver, this`position
      ensures Valid()
      ensures hp == 100.0 && score == 0 && weapon == Pistol && !gameOver
      ensures enemies == [] && playerProjectiles == [] && enemyProjectiles == []
      ensures position == Vec3(0.0, FloorHeight, 0.0)
      ensures maxHp == old(maxHp) && lastShot == old(lastShot) && canJump == old(canJump)
      ensures velocity == old(velocity) && particles == old(particles) && obstacles == old(obstacles)
    {
      hp := 100.0;
      score := 0;
      weapon := Pistol;
      enemies := [];
      playerProjectiles := [];
      enemyProjectiles := [];
      gameOver := false;
      position := Vec3(0.0, FloorHeight, 0.0);
    }

    /**
     * `damageEnemy` on the enemy at index `i`: the registry and score become
     * what `Hit` says; `killed` tells whether the enemy was removed.
     */
    method DamageEnemy(i: nat, amount: real) returns (killed: bool)
      requires Valid() && i < |enemies|
      modifies this`enemies, this`score
      ensures Valid()
      ensures Standing() == Hit(old(Standing()), i, amount)
      ensures killed == (old(enemies[i].hp) - amount <= 0.0)
    {
      var e := enemies[i];
      e := e.(hp := e.hp - amount);
      enemies := enemies[i := e];
      killed := e.hp <= 0.0;
      if killed {
        enemies := enemies[..i] + enemies[i + 1..];
        score := score + Profile(e.arch).score;
      }
    }

    /**
     * The rocket's area sweep at `center`: it walks a snapshot of the
     * registry and calls `DamageEnemy` on each enemy closer than `radius`,
     * while the live registry loses the enemies that fall.
     */
    method Explode(center: Vec3, damage: real, radius: real, g: Geometry)
      requires Valid() && radius > 0.0
      modifies this`enemies, this`score
      ensures Valid()
      ensures Standing() == AreaDamage(old(Standing()), center, damage, radius, g)
    {
      var snapshot := enemies;
      ghost var score0 := score;
      ghost var struck := BlastAll(snapshot, center, damage, radius, g);
      SweepDone(snapshot, score0, center, damage, radius, g);
      Sweep(snapshot, struck, score0, center, damage, radius, g);
    }

    /** The walk over the snapshot, from the registry as it was to the end of the sweep. */
    method Sweep(snapshot: seq<Enemy>, ghost struck: seq<Enemy>, ghost score0: int,
                 center: Vec3, damage: real, radius: real, g: Geometry)
      requires Valid() && radius > 0.0 && Alive(snapshot)
      requires struck == BlastAll(snapshot, center, damage, radius, g)
      requires Standing() == SweepAt(struck, snapshot, 0, score0) && |Survivors(struck[..0])| == 0
      modifies this`enemies, this`score
      ensures Valid()
      ensures Standing() == SweepAt(struck, snapshot, |snapshot|, score0)
    {
      var k, j := 0, 0;
      while k < |snapshot|
        invariant 0 <= k <= |snapshot|
        invariant Valid()
        invariant Standing() == SweepAt(struck, snapshot, k, score0)
        invariant j == |Survivors(struck[..k])|
      {
        j := SweepOne(snapshot, struck, k, j, score0, center, damage, radius, g);
        k := k + 1;
      }
    }

    /** One enemy of the sweep: damaged at its live index when in range. */
    method SweepOne(snapshot: seq<Enemy>, ghost struck: seq<Enemy>, k: nat, j: nat, ghost score0: int,
                    center: Vec3, damage: real, radius: real, g: Geometry)
      returns (j': nat)
      requires radius > 0.0 && k < |snapshot| && Alive(snapshot) && Valid()
      requires struck == BlastAll(snapshot, center, damage, radius, g)
      requires Standing() == SweepAt(struck, snapshot, k, score0)
      requires j == |Survivors(struck[..k])|
      modifies this`enemies, this`score
      ensures Valid()
      ensures Standing() == SweepAt(struck, snapshot, k + 1, score0)
      ensures j' == |Survivors(struck[..k + 1])|
    {
      SweepSlot(struck, snapshot, k, score0);
      var d := g.dist(snapshot[k].pos, center);
      j' := j + 1;
      if d < radius {
        SweepHit(struck, snapshot, k, score0, Falloff(damage, d, radius));
        var killed := DamageEnemy(j, Falloff(damage, d, radius));
        if killed {
          j' := j;
        }
      } else {
        SweepMiss(struck, snapshot, k, score0);
      }
    }

    /**
     * `shoot` at clock `now` along the unit view direction `aim` from the eye.
     * Inside the weapon's cooldown nothing happens. Otherwise the clock is
     * stamped; the laser hits the nearest intersected enemy within range
     * (`enemyHits` are the view ray's enemy intersections, nearest first, and
     * `worldHits` its world distances, nearest first), and a nearest hit in
     * range on a health-bar plane damages nobody; a pistol or rocket adds its
     * projectile to the end of the list.
     */
    method Shoot(now: real, enemyHits: seq<RayHit>, worldHits: seq<real>, aim: Vec3) returns (outcome: ShotOutcome)
      requires Valid()
      requires |enemyHits| > 0 && enemyHits[0].target.Some? ==> enemyHits[0].target.value < |enemies|
      modifies this`lastShot, this`enemies, this`score, this`playerProjectiles
      ensures Valid()
      ensures var w := Arsenal(weapon);
        && (now - old(lastShot) < w.cooldown ==>
              outcome == OnCooldown && lastShot == old(lastShot)
              && Standing() == old(Standing()) && playerProjectiles == old(playerProjectiles))
        && (now - old(lastShot) >= w.cooldown ==> outcome.Fired? && lastShot == now)
        && (now - old(lastShot) >= w.cooldown && w.kind == Hitscan ==>
              && outcome.impact == HitscanImpact(enemyHits, worldHits, w.range.value)
              && playerProjectiles == old(playerProjectiles)
              && Standing() == if outcome.impact.EnemyImpact?
                               then Hit(old(Standing()), outcome.impact.target, w.damage)
                               else old(Standing()))
        && (now - old(lastShot) >= w.cooldown && w.kind != Hitscan ==>
              && outcome.impact == NoImpact && Standing() == old(Standing())
              && playerProjectiles == old(playerProjectiles) + [Launch(weapon, position, aim)])
    {
      var w := Arsenal(weapon);
      if now - lastShot < w.cooldown {
        return OnCooldown;
      }
      lastShot := now;
      if w.kind == Hitscan {
        var impact := HitscanImpact(enemyHits, worldHits, w.range.value);
        if impact.EnemyImpact? {
          var _ := DamageEnemy(impact.target, w.damage);
        }
        outcome := Fired(impact);
      } else {
        playerProjectiles := playerProjectiles + [Launch(weapon, position, aim)];
        outcome := Fired(NoImpact);
      }
    }

    /**
     * `onMouseDown`: a shot is attempted only while the pointer is locked and
     * the game is not over, and then it does what `Shoot` does.
     */
    method Trigger(locked: bool, now: real, enemyHits: seq<RayHit>, worldHits: seq<real>, aim: Vec3)
      returns (outcome: Option<ShotOutcome>)
      requires Valid()
      requires |enemyHits| > 0 && enemyHits[0].target.Some? ==> enemyHits[0].target.value < |enemies|
      modifies this`lastShot, this`enemies, this`score, this`playerProjectiles
      ensures Valid()
      ensures outcome.Some? <==> locked && !gameOver
      ensures outcome.None? ==>
        lastShot == old(lastShot) && Standing() == old(Standing()) && playerProjectiles == old(playerProjectiles)
      ensures var w := Arsenal(weapon);
        && (outcome.Some? && now - old(lastShot) < w.cooldown ==>
              outcome.value == OnCooldown && lastShot == old(lastShot)
              && Standing() == old(Standing()) && playerProjectiles == old(playerProjectiles))
        && (outcome.Some? && now - old(lastShot) >= w.cooldown ==> outcome.value.Fired? && lastShot == now)
        && (outcome.Some? && now - old(lastShot) >= w.cooldown && w.kind == Hitscan ==>
              && outcome.value.impact == HitscanImpact(enemyHits, worldHits, w.range.value)
              && playerProjectiles == old(playerProjectiles)
              && Standing() == if outcome.value.impact.EnemyImpact?
                               then Hit(old(Standing()), outcome.value.impact.target, w.damage)
                               else old(Standing()))
        && (outcome.Some? && now - old(lastShot) >= w.cooldown && w.kind != Hitscan ==>
              && outcome.value.impact == NoImpact && Standing() == old(Standing())
              && playerProjectiles == old(playerProjectiles) + [Launch(weapon, position, aim)])
    {
      if locked && !gameOver {
        var o := Shoot(now, enemyHits, worldHits, aim);
        outcome := Some(o);
      } else {
        outcome := None;
      }
    }

    /** `shootEnemyProjectile`: the enemy projectile joins the end of the list. */
    method ShootEnemyProjectile(from: Vec3, to: Vec3, a: Archetype, g: Geometry)
      requires Valid()
      modifies this`enemyProjectiles
      ensures Valid()
      ensures enemyProjectiles == old(enemyProjectiles) + [Bolt(from, to, a, g)]
    {
      enemyProjectiles := enemyProjectiles + [Bolt(from, to, a, g)];
    }

    /**
     * `updateEnemies`: every enemy, from the last to the first, takes its
     * turn towards the player's eye; melee strikes go through `TakeDamage`
     * one by one, the others' projectiles are appended in that order. The
     * pass goes on after a fatal strike.
     */
    method UpdateEnemies(now: real, delta: real, g: Geometry)
      requires Valid()
      modifies this`enemies, this`enemyProjectiles, this`hp, this`gameOver
      ensures Valid()
      ensures enemies == Advance(old(enemies), position, now, delta, g)
      ensures enemyProjectiles == old(enemyProjectiles) + Launches(old(enemies), position, now, delta, g)
      ensures hp == Wounded(old(hp), Blows(old(enemies), position, now, delta, g))
      ensures gameOver == (old(gameOver) || hp == 0.0)
    {
      var es := enemies;
      var eye := position;
      var i := |es|;
      while i > 0
        invariant 0 <= i <= |es|
        invariant Valid()
        invariant enemies == es[..i] + Advance(es[i..], eye, now, delta, g)
        invariant enemyProjectiles == old(enemyProjectiles) + Launches(es[i..], eye, now, delta, g)
        invariant hp == Wounded(old(hp), Blows(es[i..], eye, now, delta, g))
        invariant gameOver == (old(gameOver) || hp == 0.0)
      {
        i := i - 1;
        EnemyTurn(es, i, old(hp), old(enemyProjectiles), old(gameOver), eye, now, delta, g);
      }
      assert es[..0] == [] && es[0..] == es;
    }

    /**
     * Enemy `i`'s turn in the pass over `es`, when the enemies after it have
     * had theirs: its turn's result replaces it, its projectile is appended,
     * its strike goes through `TakeDamage`.
     */
    method EnemyTurn(es: seq<Enemy>, i: nat, ghost hp0: real, ghost shots0: seq<EnemyProjectile>, ghost over0: bool,
                     eye: Vec3, now: real, delta: real, g: Geometry)
      requires Valid() && i < |es| && eye == position
      requires enemies == es[..i + 1] + Advance(es[i + 1..], eye, now, delta, g)
      requires enemyProjectiles == shots0 + Launches(es[i + 1..], eye, now, delta, g)
      requires hp == Wounded(hp0, Blows(es[i + 1..], eye, now, delta, g))
      requires gameOver == (over0 || hp == 0.0)
      modifies this`enemies, this`enemyProjectiles, this`hp, this`gameOver
      ensures Valid()
      ensures enemies == es[..i] + Advance(es[i..], eye, now, delta, g)
      ensures enemyProjectiles == shots0 + Launches(es[i..], eye, now, delta, g)
      ensures hp == Wounded(hp0, Blows(es[i..], eye, now, delta, g))
      ensures gameOver == (over0 || hp == 0.0)
    {
      TurnStep(es, i, eye, now, delta, g, hp0, shots0);
      var t := Turn(es[i], eye, now, delta, g);
      assert t.1.Strike? ==> t.1.amount >= 0.0;
      assert t.1.Fire? ==> t.1.bolt == Bolt(t.0.pos, position, t.0.arch, g);
      enemies := enemies[i := t.0];
      Act(t.0, t.1, g);
    }

    /**
     * The attack part of a turn by enemy `e` (already moved): a melee strike
     * goes through `TakeDamage`, a shot through `ShootEnemyProjectile` from
     * where the enemy stands.
     */
    method Act(e: Enemy, attack: Attack, g: Geometry)
      requires Valid()
      requires attack.Strike? ==> attack.amount >= 0.0
      requires attack.Fire? ==> attack.bolt == Bolt(e.pos, position, e.arch, g)
      modifies this`enemyProjectiles, this`hp, this`gameOver
      ensures Valid()
      ensures enemyProjectiles == old(enemyProjectiles) + (if attack.Fire? then [attack.bolt] else [])
      ensures hp == Wounded(old(hp), if attack.Strike? then attack.amount else 0.0)
      ensures gameOver == (old(gameOver) || hp == 0.0)
    {
      match attack
      case NoAttack =>
      case Strike(amount) =>
        var _ := TakeDamage(amount);
      case Fire(_) =>
        ShootEnemyProjectile(e.pos, position, e.arch, g);
    }

    /**
     * The collision part of `updateProjectiles` for the moved projectile
     * `p`, with the player's eye at `eye`: below the floor it is a hit with
     * no damage; otherwise the registry is scanned in order and the first
     * enemy in contact is hit (or, for an explosive, the explosion goes off
     * there) and the scan stops; a projectile that hit nothing but left the
     * reach is removed too, an explosive one exploding where it is.
     */
    method ResolveShot(p: PlayerProjectile, eye: Vec3, g: Geometry) returns (removed: bool)
      requires Valid() && WellFormed(p)
      modifies this`enemies, this`score
      ensures Valid()
      ensures (Standing(), removed) == Resolve(old(Standing()), p, eye, g)
    {
      var hit := p.pos.y < 0.0;
      if !hit {
        var k := 0;
        while k < |enemies|
          invariant 0 <= k <= |enemies|
          invariant Valid() && enemies == old(enemies) && score == old(score)
          invariant forall j :: 0 <= j < k ==> !Touches(enemies[j], p.pos, g)
        {
          if Touches(enemies[k], p.pos, g) {
            if p.kind == Explosive {
              Explode(p.pos, p.damage, p.blastRadius.value, g);
            } else {
              var _ := DamageEnemy(k, p.damage);
            }
            hit := true;
            break;
          }
          k := k + 1;
        }
      }
      if hit || g.dist(p.pos, eye) > PlayerShotReach {
        if p.kind == Explosive && !hit {
          Explode(p.pos, p.damage, p.blastRadius.value, g);
        }
        removed := true;
      } else {
        removed := false;
      }
    }

    /**
     * `updateProjectiles` for the player's projectiles: from the last to the
     * first, an inactive one is skipped; any other one flies (in place) and
     * is removed when `ResolveShot` says so. The registry, the score and the
     * list end as `Volley` says.
     */
    method UpdatePlayerProjectiles(delta: real, g: Geometry)
      requires Valid()
      modifies this`playerProjectiles, this`enemies, this`score
      ensures Valid()
      ensures (Standing(), playerProjectiles) == Volley(old(Standing()), old(playerProjectiles), delta, position, g)
    {
      var ps := playerProjectiles;
      var eye := position;
      ghost var cur := Standing();
      ghost var final := Volley(cur, ps, delta, eye, g);
      ghost var kept: seq<PlayerProjectile> := [];
      var i := |ps|;
      assert ps[..i] == ps;
      while i > 0
        invariant 0 <= i <= |ps|
        invariant Valid() && Standing() == cur
        invariant playerProjectiles == ps[..i] + kept
        invariant Volley(cur, ps[..i], delta, eye, g).0 == final.0
        invariant Volley(cur, ps[..i], delta, eye, g).1 + kept == final.1
      {
        i := i - 1;
        kept, cur := ProjectileTurn(ps, i, kept, cur, final, eye, delta, g);
      }
    }

    /**
     * Projectile `i`'s turn in the pass over `ps`, when those after it have
     * had theirs and the registry and score stand at `a`.
     */
    method ProjectileTurn(ps: seq<PlayerProjectile>, i: nat, ghost kept: seq<PlayerProjectile>, ghost a: Arena,
                          ghost final: (Arena, seq<PlayerProjectile>), eye: Vec3, delta: real, g: Geometry)
      returns (ghost kept': seq<PlayerProjectile>, ghost a': Arena)
      requires Valid() && i < |ps| && forall j :: 0 <= j < |ps| ==> WellFormed(ps[j])
      requires Standing() == a && playerProjectiles == ps[..i + 1] + kept
      requires Volley(a, ps[..i + 1], delta, eye, g).0 == final.0
      requires Volley(a, ps[..i + 1], delta, eye, g).1 + kept == final.1
      modifies this`playerProjectiles, this`enemies, this`score
      ensures Valid()
      ensures Standing() == a' && playerProjectiles == ps[..i] + kept'
      ensures Volley(a', ps[..i], delta, eye, g).0 == final.0
      ensures Volley(a', ps[..i], delta, eye, g).1 + kept' == final.1
    {
      VolleyTurn(a, ps, i, kept, final, delta, eye, g);
      assert ps[..i + 1] == ps[..i] + [ps[i]];
      assert playerProjectiles[..i] == ps[..i] && playerProjectiles[i] == ps[i] && playerProjectiles[i + 1..] == kept;
      if !playerProjectiles[i].active {
        kept', a' := [ps[i]] + kept, a;
        Regroup(ps[..i], [ps[i]], kept);
      } else {
        var removed := Flight(i, eye, delta, g);
        a' := Standing();
        ghost var q := if removed then [] else [Fly(ps[i], delta)];
        kept' := q + kept;
        Regroup(ps[..i], q, kept);
      }
    }

    /**
     * An active player projectile's flight in `updateProjectiles`: it moves
     * in place, then `ResolveShot` decides whether it is removed.
     */
    method Flight(i: nat, eye: Vec3, delta: real, g: Geometry) returns (removed: bool)
      requires Valid() && i < |playerProjectiles|
      modifies this`playerProjectiles, this`enemies, this`score
      ensures Valid()
      ensures var q := Fly(old(playerProjectiles[i]), delta);
        && (Standing(), removed) == Resolve(old(Standing()), q, eye, g)
        && playerProjectiles == old(playerProjectiles[..i]) + (if removed then [] else [q]) + old(playerProjectiles[i + 1..])
    {
      var p := playerProjectiles[i];
      var q := Fly(p, delta);
      ReplaceAndCut(playerProjectiles[..i], p, playerProjectiles[i + 1..], q);
      assert playerProjectiles == playerProjectiles[..i] + [p] + playerProjectiles[i + 1..];
      playerProjectiles := playerProjectiles[i := q];
      removed := ResolveShot(q, eye, g);
      if removed {
        playerProjectiles := playerProjectiles[..i] + playerProjectiles[i + 1..];
      }
    }

    /**
     * `updateProjectiles` for the enemy projectiles: from the last to the
     * first, each one drifts (in place); one within 1.0 of the player's eye
     * deals its damage through `TakeDamage` and is removed, one below the
     * floor or out of reach is removed. The list ends as `Bolts` says and
     * the player's hp drops by `BoltDamage`, clamped at zero.
     */
    method UpdateEnemyProjectiles(delta: real, g: Geometry)
      requires Valid()
      modifies this`enemyProjectiles, this`hp, this`gameOver
      ensures Valid()
      ensures enemyProjectiles == Bolts(old(enemyProjectiles), delta, position, g)
      ensures hp == Wounded(old(hp), BoltDamage(old(enemyProjectiles), delta, position, g))
      ensures gameOver == (old(gameOver) || hp == 0.0)
    {
      var bs := enemyProjectiles;
      var eye := position;
      var i := |bs|;
      assert bs[..i] == bs && bs[i..] == [];
      while i > 0
        invariant 0 <= i <= |bs|
        invariant Valid() && forall j :: 0 <= j < |bs| ==> bs[j].damage >= 0.0
        invariant enemyProjectiles == bs[..i] + Bolts(bs[i..], delta, eye, g)
        invariant hp == Wounded(old(hp), BoltDamage(bs[i..], delta, eye, g))
        invariant gameOver == (old(gameOver) || hp == 0.0)
      {
        i := i - 1;
        BoltHit(bs, i, old(hp), old(gameOver), eye, delta, g);
        BoltMove(bs, i, eye, delta, g);
      }
      assert bs[..0] == [] && bs[0..] == bs;
    }

    /**
     * The hit part of enemy projectile `i`'s turn in the pass over `bs`,
     * when those after it have had theirs: if it reaches the player once
     * moved, its damage goes through `TakeDamage`.
     */
    method BoltHit(bs: seq<EnemyProjectile>, i: nat, ghost hp0: real, ghost over0: bool, eye: Vec3, delta: real, g: Geometry)
      requires Valid() && i < |bs| && forall j :: 0 <= j < |bs| ==> bs[j].damage >= 0.0
      requires hp == Wounded(hp0, BoltDamage(bs[i + 1..], delta, eye, g))
      requires gameOver == (over0 || hp == 0.0)
      modifies this`hp, this`gameOver
      ensures Valid()
      ensures hp == Wounded(hp0, BoltDamage(bs[i..], delta, eye, g))
      ensures gameOver == (over0 || hp == 0.0)
    {
      BoltHurt(bs, i, delta, eye, g, hp0);
      var b := Drift(bs[i], delta);
      if g.dist(b.pos, eye) < 1.0 {
        var _ := TakeDamage(b.damage);
      }
    }

    /**
     * The list part of enemy projectile `i`'s turn: it is replaced in place
     * by its moved copy, which is spliced out when it reached the player,
     * fell below the floor or left the reach.
     */
    method BoltMove(bs: seq<EnemyProjectile>, i: nat, eye: Vec3, delta: real, g: Geometry)
      requires Valid() && i < |bs| && bs[i].damage >= 0.0
      requires enemyProjectiles == bs[..i + 1] + Bolts(bs[i + 1..], delta, eye, g)
      modifies this`enemyProjectiles
      ensures Valid()
      ensures enemyProjectiles == bs[..i] + Bolts(bs[i..], delta, eye, g)
    {
      BoltKeep(bs, i, delta, eye, g);
      var b := Drift(bs[i], delta);
      var gone := g.dist(b.pos, eye) < 1.0 || b.pos.y < 0.0 || g.dist(b.pos, eye) > EnemyShotReach;
      ghost var rest := Bolts(bs[i + 1..], delta, eye, g);
      ghost var kept := if gone then [] else [b];
      assert bs[..i + 1] == bs[..i] + [bs[i]];
      ReplaceAndCut(bs[..i], bs[i], rest, b);
      enemyProjectiles := enemyProjectiles[i := b];
      if gone {
        enemyProjectiles := enemyProjectiles[..i] + enemyProjectiles[i + 1..];
      }
      assert enemyProjectiles == bs[..i] + kept + rest;
      Regroup(bs[..i], kept, rest);
    }

    /**
     * `updateProjectiles`: the player's projectiles first, then the enemies'
     * projectiles, both against the player's eye.
     */
    method UpdateProjectiles(delta: real, g: Geometry)
      requires Valid()
      modifies this`playerProjectiles, this`enemies, this`score, this`enemyProjectiles, this`hp, this`gameOver
      ensures Valid()
      ensures (Standing(), playerProjectiles) == Volley(old(Standing()), old(playerProjectiles), delta, position, g)
      ensures enemyProjectiles == Bolts(old(enemyProjectiles), delta, position, g)
      ensures hp == Wounded(old(hp), BoltDamage(old(enemyProjectiles), delta, position, g))
      ensures gameOver == (old(gameOver) || hp == 0.0)
    {
      UpdatePlayerProjectiles(delta, g);
      UpdateEnemyProjectiles(delta, g);
    }

    /**
     * `updateParticles`: from the last to the first, each particle ages (in
     * place) and is removed once its life is used up; the list ends as
     * `Decayed` says.
     */
    method UpdateParticles(delta: real)
      modifies this`particles
      ensures particles == Decayed(old(particles), delta)
    {
      var ps := particles;
      var i := |ps|;
      assert ps[..i] == ps && ps[i..] == [];
      while i > 0
        invariant 0 <= i <= |ps|
        invariant particles == ps[..i] + Decayed(ps[i..], delta)
      {
        i := i - 1;
        var q := Age(ps[i], delta);
        ghost var rest := Decayed(ps[i + 1..], delta);
        ghost var kept := if q.life <= 0.0 then [] else [q];
        assert ps[i..][1..] == ps[i + 1..];
        assert ps[..i + 1] == ps[..i] + [ps[i]];
        ReplaceAndCut(ps[..i], ps[i], rest, q);
        particles := particles[i := q];
        if q.life <= 0.0 {
          particles := particles[..i] + particles[i + 1..];
        }
        assert particles == ps[..i] + kept + rest;
        Regroup(ps[..i], kept, rest);
      }
      assert ps[..0] == [] && ps[0..] == ps;
    }

    /**
     * `checkPlayerCollision`: the obstacles are scanned in order and the
     * scan returns at the first one whose box overlaps the player's.
     */
    method CheckPlayerCollision() returns (hit: bool)
      ensures hit <==> exists i :: 0 <= i < |obstacles| && Blocks(obstacles[i], position)
    {
      var k := 0;
      while k < |obstacles|
        invariant 0 <= k <= |obstacles|
        invariant forall i :: 0 <= i < k ==> !Blocks(obstacles[i], position)
      {
        if obstacles[k].box.Some? && Overlap(PlayerBox(position), obstacles[k].box.value) {
          return true;
        }
        k := k + 1;
      }
      return false;
    }

    /** A camera-relative move by `d` along `dir`, undone when it ends in an obstacle. */
    method TryMove(dir: Vec3, d: real) returns (blocked: bool)
      modifies this`position
      ensures (position, blocked) == Step(obstacles, old(position), dir, d)
    {
      position := Add(position, Scale(dir, d));
      blocked := CheckPlayerCollision();
      if blocked {
        position := Add(position, Scale(dir, -d));
      }
    }

    /**
     * The movement part of `animate`: the velocity is damped, pulled down
     * and pushed by the keys; the player then tries the sideways move along
     * `right` (the camera's right) and the forward move along `forward`
     * (the camera's horizontal forward), each undone and its velocity
     * component zeroed when blocked; finally the player falls freely and
     * lands on the floor, which stops the fall and allows a jump.
     */
    method MovePlayer(delta: real, keys: Keys, mult: real, invSqrt2: real, right: Vec3, forward: Vec3)
      returns (blockedX: bool, blockedZ: bool)
      modifies this`velocity, this`position, this`canJump
      ensures var m := Moved(obstacles, old(position), old(velocity), delta, keys, mult, invSqrt2, right, forward);
        && position == m.pos && velocity == m.vel && blockedX == m.blockedX && blockedZ == m.blockedZ
        && canJump == (old(canJump) || m.landed)
    {
      velocity := Impelled(velocity, delta, keys, mult, invSqrt2);
      blockedX, blockedZ := Stride(delta, right, forward);
      Fall(delta);
    }

    /**
     * The horizontal part of a move: the sideways move, then the forward
     * move, each by minus its velocity component times `delta`; a blocked
     * move is undone and its velocity component zeroed.
     */
    method Stride(delta: real, right: Vec3, forward: Vec3) returns (blockedX: bool, blockedZ: bool)
      modifies this`velocity, this`position
      ensures (position, velocity, blockedX, blockedZ) == Slide(obstacles, old(position), old(velocity), delta, right, forward)
    {
      blockedX := TryMove(right, Travel(velocity.x, delta));
      if blockedX {
        velocity := velocity.(x := 0.0);
      }
      blockedZ := TryMove(forward, Travel(velocity.z, delta));
      if blockedZ {
        velocity := velocity.(z := 0.0);
      }
    }

    /**
     * The vertical part of a move, with no obstacle check: the player
     * rises or falls by its vertical velocity; below the floor height it is
     * put back on the floor, its fall stops and it may jump again.
     */
    method Fall(delta: real)
      modifies this`velocity, this`position, this`canJump
      ensures var d := Drop(old(position), old(velocity), delta);
        position == d.0 && velocity == d.1 && canJump == (old(canJump) || d.2)
    {
      position := position.(y := position.y + velocity.y * delta);
      if position.y < FloorHeight {
        velocity := velocity.(y := 0.0);
        position := position.(y := FloorHeight);
        canJump := true;
      }
    }

    /**
     * One frame of `animate` at clock `now`, `delta` seconds after the last.
     * Unless the session is active and not over, nothing changes. Otherwise
     * the player moves as `Moved` says; the enemies then take their turns
     * towards the new eye; the player's projectiles are resolved against the
     * registry the enemies left; the enemy projectiles, including those just
     * fired, fly and hit; and the particles decay. So a frame never heals the
     * player, never lowers the score and never adds enemies (spawning runs on
     * its own timer), and after a live frame the player stands at or above
     * the floor height.
     */
    method Animate(gameActive: bool, now: real, delta: real, keys: Keys, mult: real, invSqrt2: real,
                   right: Vec3, forward: Vec3, g: Geometry)
      requires Valid()
      modifies this
      ensures Valid()
      ensures !(gameActive && !old(gameOver)) ==> unchanged(this)
      ensures gameActive && !old(gameOver) ==>
        var m := Moved(obstacles, old(position), old(velocity), delta, keys, mult, invSqrt2, right, forward);
        var es := old(enemies);
        var shots := old(enemyProjectiles) + Launches(es, m.pos, now, delta, g);
        var v := Volley(Arena(Advance(es, m.pos, now, delta, g), old(score)), old(playerProjectiles), delta, m.pos, g);
        && position == m.pos && velocity == m.vel && canJump == (old(canJump) || m.landed)
        && Standing() == v.0 && playerProjectiles == v.1
        && enemyProjectiles == Bolts(shots, delta, m.pos, g)
        && hp == Wounded(Wounded(old(hp), Blows(es, m.pos, now, delta, g)), BoltDamage(shots, delta, m.pos, g))
        && particles == Decayed(old(particles), delta)
        && gameOver == (hp == 0.0)
        && position.y >= FloorHeight
      ensures hp <= old(hp) && score >= old(score) && |enemies| <= |old(enemies)|
      ensures old(gameOver) ==> gameOver
      ensures weapon == old(weapon) && lastShot == old(lastShot) && obstacles == old(obstacles)
    {
      if gameActive && !gameOver {
        LiveFrame(now, delta, keys, mult, invSqrt2, right, forward, g);
      }
    }

    /** A frame of `animate` while the session is active and not over. */
    method LiveFrame(now: real, delta: real, keys: Keys, mult: real, invSqrt2: real,
                     right: Vec3, forward: Vec3, g: Geometry)
      requires Valid() && !gameOver
      modifies this`velocity, this`position, this`canJump, this`enemies, this`enemyProjectiles, this`hp,
        this`gameOver, this`playerProjectiles, this`score, this`particles
      ensures Valid()
      ensures var m := Moved(obstacles, old(position), old(velocity), delta, keys, mult, invSqrt2, right, forward);
        var es := old(enemies);
        var shots := old(enemyProjectiles) + Launches(es, m.pos, now, delta, g);
        var v := Volley(Arena(Advance(es, m.pos, now, delta, g), old(score)), old(playerProjectiles), delta, m.pos, g);
        && position == m.pos && velocity == m.vel && canJump == (old(canJump) || m.landed)
        && Standing() == v.0 && playerProjectiles == v.1
        && enemyProjectiles == Bolts(shots, delta, m.pos, g)
        && hp == Wounded(Wounded(old(hp), Blows(es, m.pos, now, delta, g)), BoltDamage(shots, delta, m.pos, g))
        && particles == Decayed(old(particles), delta)
        && gameOver == (hp == 0.0)
        && position.y >= FloorHeight
      ensures hp <= old(hp) && score >= old(score) && |enemies| <= |old(enemies)|
    {
      ghost var m := Moved(obstacles, position, velocity, delta, keys, mult, invSqrt2, right, forward);
      ghost var s := Slide(obstacles, position, Impelled(velocity, delta, keys, mult, invSqrt2), delta, right, forward);
      var _, _ := MovePlayer(delta, keys, mult, invSqrt2, right, forward);
      DropSpec(s.0, s.1, delta);
      assert position == m.pos && position.y >= FloorHeight;
      UpdateSystems(now, delta, g);
    }

    /**
     * The update systems of a live frame, in the source's order, with the
     * player's eye where it now is: the enemies' turns, then both projectile
     * passes, then the particles.
     */
    method UpdateSystems(now: real, delta: real, g: Geometry)
      requires Valid()
      modifies this`enemies, this`enemyProjectiles, this`hp, this`gameOver, this`playerProjectiles, this`score,
        this`particles
      ensures Valid()
      ensures var es := old(enemies);
        var shots := old(enemyProjectiles) + Launches(es, position, now, delta, g);
        var v := Volley(Arena(Advance(es, position, now, delta, g), old(score)), old(playerProjectiles), delta, position, g);
        && Standing() == v.0 && playerProjectiles == v.1
        && enemyProjectiles == Bolts(shots, delta, position, g)
        && hp == Wounded(Wounded(old(hp), Blows(es, position, now, delta, g)), BoltDamage(shots, delta, position, g))
        && particles == Decayed(old(particles), delta)
        && gameOver == (old(gameOver) || hp == 0.0)
      ensures hp <= old(hp) && score >= old(score) && |enemies| <= |old(enemies)|
    {
      var eye := position;
      EnemyPhase(now, delta, g);
      ghost var a1, shots := Standing(), enemyProjectiles;
      assert a1 == Arena(Advance(old(enemies), eye, now, delta, g), old(score));
      ProjectilePhase(delta, g);
      assert (Standing(), playerProjectiles) == Volley(a1, old(playerProjectiles), delta, eye, g);
      assert enemyProjectiles == Bolts(shots, delta, eye, g);
      UpdateParticles(delta);
    }

    /**
     * `updateEnemies` as a frame sees it: exactly what `UpdateEnemies` does,
     * so hp only drops and the registry keeps its size.
     */
    method EnemyPhase(now: real, delta: real, g: Geometry)
      requires Valid()
      modifies this`enemies, this`enemyProjectiles, this`hp, this`gameOver
      ensures Valid()
      ensures enemies == Advance(old(enemies), position, now, delta, g)
      ensures enemyProjectiles == old(enemyProjectiles) + Launches(old(enemies), position, now, delta, g)
      ensures hp == Wounded(old(hp), Blows(old(enemies), position, now, delta, g))
      ensures gameOver == (old(gameOver) || hp == 0.0)
      ensures hp <= old(hp) && |enemies| == |old(enemies)|
    {
      UpdateEnemies(now, delta, g);
    }

    /**
     * `updateProjectiles` as a frame sees it: exactly what `UpdateProjectiles`
     * does, so hp only drops, the score only rises and the registry never
     * grows.
     */
    method ProjectilePhase(delta: real, g: Geometry)
      requires Valid()
      modifies this`playerProjectiles, this`enemies, this`score, this`enemyProjectiles, this`hp, this`gameOver
      ensures Valid()
      ensures (Standing(), playerProjectiles) == Volley(old(Standing()), old(playerProjectiles), delta, position, g)
      ensures enemyProjectiles == Bolts(old(enemyProjectiles), delta, position, g)
      ensures hp == Wounded(old(hp), BoltDamage(old(enemyProjectiles), delta, position, g))
      ensures gameOver == (old(gameOver) || hp == 0.0)
      ensures hp <= old(hp) && score >= old(score) && |enemies| <= |old(enemies)|
    {
      VolleyKeeps(Standing(), playerProjectiles, delta, position, g);
      BoltDamageBounds(enemyProjectiles, delta, position, g);
      UpdateProjectiles(delta, g);
    }

    /** The jump key: only when allowed, it adds the jump impulse and forbids another jump. */
    method Jump()
      modifies this`velocity, this`canJump
      ensures old(canJump) ==> velocity == old(velocity).(y := old(velocity).y + JumpForce) && !canJump
      ensures !old(canJump) ==> velocity == old(velocity) && !canJump
    {
      if canJump {
        velocity := velocity.(y := velocity.y + JumpForce);
        canJump := false;
      }
    }

    /**
     * One tick of the spawner: while the game is active and fewer than 20
     * enemies are registered, a new enemy chosen by `roll` joins the registry.
     */
    method SpawnTick(gameActive: bool, roll: real, id: string, px: real, pz: real) returns (spawned: bool)
      requires Valid()
      modifies this`enemies
      ensures Valid()
      ensures spawned == (gameActive && |old(enemies)| < PopulationCap)
      ensures enemies == if spawned then old(enemies) + [Recruit(id, roll, px, pz)] else old(enemies)
      ensures |old(enemies)| <= PopulationCap ==> |enemies| <= PopulationCap
    {
      spawned := gameActive && |enemies| < PopulationCap;
      if spawned {
        var a := Choose(roll);
        var s := Profile(a);
        enemies := enemies + [Enemy(id, s.hp, s.hp, a, 0.0, Vec3(px, s.radius + 1.0, pz))];
      }
    }
  }
}
