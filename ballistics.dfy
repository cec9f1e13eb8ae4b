/**
 * One frame of projectile flight: player projectiles (gravity, floor, enemy
 * contact, range) and enemy projectiles (player contact, floor, range).
 */
module Ballistics {
  import opened Base
  import opened Config
  import opened Entities
  import opened Combat

  /** A player projectile is in contact with an enemy within the enemy's radius plus 0.5. */
  predicate Touches(e: Enemy, p: Vec3, g: Geometry) {
    g.dist(p, e.pos) < Profile(e.arch).radius + 0.5
  }

  /** The scan of the registry in order for the first enemy in contact with `p`. */
  function FirstContact(es: seq<Enemy>, p: Vec3, g: Geometry): (r: Option<nat>)
    ensures r.Some? ==> r.value < |es| && Touches(es[r.value], p, g)
    ensures r.Some? ==> forall j :: 0 <= j < r.value ==> !Touches(es[j], p, g)
    ensures r.None? ==> forall j :: 0 <= j < |es| ==> !Touches(es[j], p, g)
  {
    if es == [] then None
    else if Touches(es[0], p, g) then Some(0)
    else
      match FirstContact(es[1..], p, g)
      case None =>
        assert forall j :: 1 <= j < |es| ==> es[j] == es[1..][j - 1];
        None
      case Some(k) => Some(k + 1)
  }

  /** Gravity (when the projectile has it) acts on the velocity, then the position moves. */
  function Fly(p: PlayerProjectile, delta: real): (q: PlayerProjectile)
    ensures q.kind == p.kind && q.damage == p.damage && q.active == p.active
    ensures q.blastRadius == p.blastRadius && q.gravity == p.gravity
    ensures p.gravity.None? ==> q.vel == p.vel
    ensures WellFormed(p) ==> WellFormed(q)
  {
    var v := if p.gravity.Some? then p.vel.(y := p.vel.y - p.gravity.value * delta) else p.vel;
    p.(pos := Add(p.pos, Scale(v, delta)), vel := v)
  }

  const PlayerShotReach := 200.0
  const EnemyShotReach := 100.0

  /**
   * The resolution of one moved player projectile `p` with the player's eye
   * at `eye`: the registry and score afterwards, and whether it is removed.
   */
  function Resolve(a: Arena, p: PlayerProjectile, eye: Vec3, g: Geometry): (Arena, bool)
    requires WellFormed(p)
  {
    var floor := p.pos.y < 0.0;
    var contact := if floor then None else FirstContact(a.enemies, p.pos, g);
    var a1 :=
      if contact.None? then a
      else if p.kind == Explosive then AreaDamage(a, p.pos, p.damage, p.blastRadius.value, g)
      else Hit(a, contact.value, p.damage);
    var hit := floor || contact.Some?;
    var removed := hit || g.dist(p.pos, eye) > PlayerShotReach;
    var a2 :=
      if removed && p.kind == Explosive && !hit then AreaDamage(a1, p.pos, p.damage, p.blastRadius.value, g)
      else a1;
    (a2, removed)
  }

  /**
   * What resolving a projectile does. It is removed exactly on a floor hit,
   * an enemy contact or leaving the reach. A floor hit skips the enemy scan
   * and deals no damage. On contact an explosive deals only its area damage
   * (once), any other projectile hits the first enemy in contact. An
   * explosive that leaves the reach without a hit explodes there; any other
   * projectile that hits nothing changes nothing.
   */
  lemma ResolveSpec(a: Arena, p: PlayerProjectile, eye: Vec3, g: Geometry)
    requires WellFormed(p)
    ensures var r := Resolve(a, p, eye, g); var contact := FirstContact(a.enemies, p.pos, g);
      && (r.1 <==> p.pos.y < 0.0 || contact.Some? || g.dist(p.pos, eye) > PlayerShotReach)
      && (p.pos.y < 0.0 ==> r.0 == a)
      && (p.pos.y >= 0.0 && contact.Some? && p.kind == Explosive ==>
            r.0 == AreaDamage(a, p.pos, p.damage, p.blastRadius.value, g))
      && (p.pos.y >= 0.0 && contact.Some? && p.kind != Explosive ==>
            r.0 == Hit(a, contact.value, p.damage))
      && (p.pos.y >= 0.0 && contact.None? ==>
            r.0 == if p.kind == Explosive && g.dist(p.pos, eye) > PlayerShotReach
                   then AreaDamage(a, p.pos, p.damage, p.blastRadius.value, g) else a)
  {
  }

  /**
   * Resolving a projectile keeps the registry alive, never grows it and
   * never lowers the score.
   */
  lemma ResolveKeeps(a: Arena, p: PlayerProjectile, eye: Vec3, g: Geometry)
    requires WellFormed(p) && Alive(a.enemies)
    ensures var r := Resolve(a, p, eye, g);
      Alive(r.0.enemies) && |r.0.enemies| <= |a.enemies| && r.0.score >= a.score
  {
    var floor := p.pos.y < 0.0;
    var contact := if floor then None else FirstContact(a.enemies, p.pos, g);
    var a1 :=
      if contact.None? then a
      else if p.kind == Explosive then AreaDamage(a, p.pos, p.damage, p.blastRadius.value, g)
      else Hit(a, contact.value, p.damage);
    if contact.Some? {
      if p.kind == Explosive {
        AreaDamageKeeps(a, p.pos, p.damage, p.blastRadius.value, g);
      } else {
        HitKeepsAlive(a, contact.value, p.damage);
      }
    }
    if p.kind == Explosive {
      AreaDamageKeeps(a1, p.pos, p.damage, p.blastRadius.value, g);
    }
  }

  /**
   * The whole player-projectile pass, from the last projectile to the first:
   * an inactive projectile is skipped and kept; any other one flies, is
   * resolved against the registry as it stands, and is kept (moved) unless it
   * is removed. Returns the registry and score, and the kept projectiles in
   * their original order.
   */
  function Volley(a: Arena, ps: seq<PlayerProjectile>, delta: real, eye: Vec3, g: Geometry)
    : (Arena, seq<PlayerProjectile>)
    requires forall i :: 0 <= i < |ps| ==> WellFormed(ps[i])
    decreases |ps|
  {
    if ps == [] then (a, [])
    else
      var n := |ps| - 1;
      if !ps[n].active then
        var rest := Volley(a, ps[..n], delta, eye, g);
        (rest.0, rest.1 + [ps[n]])
      else
        assert WellFormed(ps[n]);
        var p := Fly(ps[n], delta);
        var step := Resolve(a, p, eye, g);
        var rest := Volley(step.0, ps[..n], delta, eye, g);
        (rest.0, if step.1 then rest.1 else rest.1 + [p])
  }

  /**
   * A whole pass keeps the registry alive, never grows it and never lowers
   * the score.
   */
  lemma {:induction false} VolleyKeeps(a: Arena, ps: seq<PlayerProjectile>, delta: real, eye: Vec3, g: Geometry)
    requires forall i :: 0 <= i < |ps| ==> WellFormed(ps[i])
    requires Alive(a.enemies)
    ensures var r := Volley(a, ps, delta, eye, g);
      Alive(r.0.enemies) && |r.0.enemies| <= |a.enemies| && r.0.score >= a.score
    decreases |ps|
  {
    if ps != [] {
      var n := |ps| - 1;
      if !ps[n].active {
        VolleyKeeps(a, ps[..n], delta, eye, g);
      } else {
        var p := Fly(ps[n], delta);
        ResolveKeeps(a, p, eye, g);
        VolleyKeeps(Resolve(a, p, eye, g).0, ps[..n], delta, eye, g);
      }
    }
  }

  /**
   * A pass never adds projectiles, keeps only well-formed ones and, when
   * every projectile was active, keeps only active ones.
   */
  lemma {:induction false} VolleyShape(a: Arena, ps: seq<PlayerProjectile>, delta: real, eye: Vec3, g: Geometry)
    requires forall i :: 0 <= i < |ps| ==> WellFormed(ps[i])
    ensures var r := Volley(a, ps, delta, eye, g);
      && |r.1| <= |ps|
      && (forall q :: q in r.1 ==> WellFormed(q))
      && ((forall i :: 0 <= i < |ps| ==> ps[i].active) ==> forall q :: q in r.1 ==> q.active)
    decreases |ps|
  {
    if ps != [] {
      var n := |ps| - 1;
      if !ps[n].active {
        VolleyShape(a, ps[..n], delta, eye, g);
      } else {
        var p := Fly(ps[n], delta);
        VolleyShape(Resolve(a, p, eye, g).0, ps[..n], delta, eye, g);
      }
    }
  }

  /** The pass over `ps[..i + 1]` handles projectile `i` first, then the pass over `ps[..i]`. */
  lemma VolleyLast(a: Arena, ps: seq<PlayerProjectile>, i: nat, delta: real, eye: Vec3, g: Geometry)
    requires i < |ps| && forall j :: 0 <= j < |ps| ==> WellFormed(ps[j])
    ensures forall j :: 0 <= j < i ==> WellFormed(ps[..i][j])
    ensures !ps[i].active ==>
      var rest := Volley(a, ps[..i], delta, eye, g);
      Volley(a, ps[..i + 1], delta, eye, g) == (rest.0, rest.1 + [ps[i]])
    ensures ps[i].active ==>
      var q := Fly(ps[i], delta);
      var step := Resolve(a, q, eye, g);
      var rest := Volley(step.0, ps[..i], delta, eye, g);
      Volley(a, ps[..i + 1], delta, eye, g) == (rest.0, if step.1 then rest.1 else rest.1 + [q])
  {
    assert ps[..i + 1][..i] == ps[..i];
    assert ps[..i + 1][i] == ps[i];
  }

  /**
   * The bookkeeping of the pass: if the pass over `ps[..i + 1]` from `a`,
   * followed by `kept`, gives `final`, then so does the pass over `ps[..i]`
   * from the registry after projectile `i`, followed by what is kept of
   * projectile `i` and then `kept`.
   */
  lemma VolleyTurn(a: Arena, ps: seq<PlayerProjectile>, i: nat, kept: seq<PlayerProjectile>,
                   final: (Arena, seq<PlayerProjectile>), delta: real, eye: Vec3, g: Geometry)
    requires i < |ps| && forall j :: 0 <= j < |ps| ==> WellFormed(ps[j])
    requires Volley(a, ps[..i + 1], delta, eye, g).0 == final.0
    requires Volley(a, ps[..i + 1], delta, eye, g).1 + kept == final.1
    ensures forall j :: 0 <= j < i ==> WellFormed(ps[..i][j])
    ensures !ps[i].active ==>
      && Volley(a, ps[..i], delta, eye, g).0 == final.0
      && Volley(a, ps[..i], delta, eye, g).1 + ([ps[i]] + kept) == final.1
    ensures ps[i].active ==>
      var q := Fly(ps[i], delta);
      var step := Resolve(a, q, eye, g);
      && Volley(step.0, ps[..i], delta, eye, g).0 == final.0
      && Volley(step.0, ps[..i], delta, eye, g).1 + (if step.1 then kept else [q] + kept) == final.1
  {
    VolleyLast(a, ps, i, delta, eye, g);
    if !ps[i].active {
      var rest := Volley(a, ps[..i], delta, eye, g).1;
      assert (rest + [ps[i]]) + kept == rest + ([ps[i]] + kept);
    } else {
      var q := Fly(ps[i], delta);
      var step := Resolve(a, q, eye, g);
      var rest := Volley(step.0, ps[..i], delta, eye, g).1;
      assert (rest + [q]) + kept == rest + ([q] + kept);
    }
  }

  // ----- enemy projectiles -----

  function Drift(b: EnemyProjectile, delta: real): EnemyProjectile {
    b.(pos := Add(b.pos, Scale(b.vel, delta)))
  }

  /** An enemy projectile within 1.0 of the player hits. */
  predicate Strikes(b: EnemyProjectile, eye: Vec3, g: Geometry) {
    g.dist(b.pos, eye) < 1.0
  }

  /** An enemy projectile below the floor or beyond the reach is cleaned up. */
  predicate Spent(b: EnemyProjectile, eye: Vec3, g: Geometry) {
    b.pos.y < 0.0 || g.dist(b.pos, eye) > EnemyShotReach
  }

  /**
   * The enemy projectiles kept after one frame, moved, in their order: a
   * projectile stays exactly when, after moving, it neither hits the player
   * nor is spent; so none that hit is kept.
   */
  function Bolts(bs: seq<EnemyProjectile>, delta: real, eye: Vec3, g: Geometry): seq<EnemyProjectile>
    decreases |bs|
  {
    if bs == [] then []
    else
      var b := Drift(bs[0], delta);
      (if Strikes(b, eye, g) || Spent(b, eye, g) then [] else [b]) + Bolts(bs[1..], delta, eye, g)
  }

  /**
   * The pass never adds projectiles, and a projectile is kept exactly when
   * it is one of the moved projectiles that neither hits the player nor is
   * spent; so none that hit is kept.
   */
  lemma {:induction false} BoltsMembers(bs: seq<EnemyProjectile>, delta: real, eye: Vec3, g: Geometry, x: EnemyProjectile)
    ensures |Bolts(bs, delta, eye, g)| <= |bs|
    ensures x in Bolts(bs, delta, eye, g) <==>
      exists i :: 0 <= i < |bs| && x == Drift(bs[i], delta) && !Strikes(x, eye, g) && !Spent(x, eye, g)
    decreases |bs|
  {
    if bs != [] {
      BoltsMembers(bs[1..], delta, eye, g, x);
      assert forall i :: 1 <= i < |bs| ==> bs[i] == bs[1..][i - 1];
      if x == Drift(bs[0], delta) && !Strikes(x, eye, g) && !Spent(x, eye, g) {
        assert x in Bolts(bs, delta, eye, g);
      }
    }
  }

  /** The damage the enemy projectiles that hit the player deal in one frame. */
  function BoltDamage(bs: seq<EnemyProjectile>, delta: real, eye: Vec3, g: Geometry): real
    decreases |bs|
  {
    if bs == [] then 0.0
    else
      var b := Drift(bs[0], delta);
      (if Strikes(b, eye, g) then b.damage else 0.0) + BoltDamage(bs[1..], delta, eye, g)
  }

  /**
   * Projectiles never heal: with no negative damage the frame's damage is
   * not negative, and it is zero when no projectile hits the player.
   */
  lemma {:induction false} BoltDamageBounds(bs: seq<EnemyProjectile>, delta: real, eye: Vec3, g: Geometry)
    ensures (forall i :: 0 <= i < |bs| ==> bs[i].damage >= 0.0) ==> BoltDamage(bs, delta, eye, g) >= 0.0
    ensures (forall i :: 0 <= i < |bs| ==> !Strikes(Drift(bs[i], delta), eye, g)) ==> BoltDamage(bs, delta, eye, g) == 0.0
    decreases |bs|
  {
    if bs != [] {
      BoltDamageBounds(bs[1..], delta, eye, g);
      assert forall i :: 1 <= i < |bs| ==> bs[i] == bs[1..][i - 1];
    }
  }

  /**
   * The pass over `bs[i..]` handles projectile `i` and then the rest: it is
   * kept, moved, unless it hits or is spent.
   */
  lemma BoltKeep(bs: seq<EnemyProjectile>, i: nat, delta: real, eye: Vec3, g: Geometry)
    requires i < |bs|
    ensures var b := Drift(bs[i], delta);
      Bolts(bs[i..], delta, eye, g) ==
      (if Strikes(b, eye, g) || Spent(b, eye, g) then [] else [b]) + Bolts(bs[i + 1..], delta, eye, g)
  {
    assert bs[i..][1..] == bs[i + 1..];
  }

  /**
   * Projectile `i`'s hit lands after the later projectiles' hits, and
   * clamping each hit at zero gives the same hp as clamping their sum.
   */
  lemma BoltHurt(bs: seq<EnemyProjectile>, i: nat, delta: real, eye: Vec3, g: Geometry, hp0: real)
    requires i < |bs| && forall j :: 0 <= j < |bs| ==> bs[j].damage >= 0.0
    ensures var b := Drift(bs[i], delta);
      Wounded(Wounded(hp0, BoltDamage(bs[i + 1..], delta, eye, g)), if Strikes(b, eye, g) then b.damage else 0.0) ==
      Wounded(hp0, BoltDamage(bs[i..], delta, eye, g))
  {
    assert bs[i..][1..] == bs[i + 1..];
    var later := bs[i + 1..];
    assert forall j :: 0 <= j < |later| ==> later[j].damage >= 0.0;
    var b := Drift(bs[i], delta);
    BoltDamageBounds(later, delta, eye, g);
    WoundedTwice(hp0, BoltDamage(later, delta, eye, g), if Strikes(b, eye, g) then b.damage else 0.0);
  }
}
