/** The two constant tables of the game: the weapons and the enemy archetypes. */
module Config {
  import opened Base

  datatype Weapon = Pistol | Laser | Rocket

  /** How a weapon resolves a shot. */
  datatype WeaponKind = Hitscan | Projectile | Explosive

  /**
   * One row of the weapon table. A field the table leaves undefined for a
   * weapon is `None` (only the laser has a range, only projectile weapons a
   * speed, only the rocket a blast radius).
   */
  datatype WeaponStats = WeaponStats(
    damage: real, cooldown: real, kind: WeaponKind,
    speed: Option<real>, range: Option<real>, blastRadius: Option<real>)

  /** The number key that selects each weapon (the player's weapon id). */
  function Slot(w: Weapon): int {
    match w
    case Pistol => 1
    case Laser => 2
    case Rocket => 3
  }

  /** The weapon a number key selects; keys other than 1, 2 and 3 select none. */
  function SlotWeapon(n: int): (w: Option<Weapon>)
    ensures w.Some? <==> 1 <= n <= 3
    ensures w.Some? ==> Slot(w.value) == n
  {
    if n == 1 then Some(Pistol) else if n == 2 then Some(Laser) else if n == 3 then Some(Rocket) else None
  }

  function Arsenal(w: Weapon): (s: WeaponStats)
    ensures s.damage > 0.0 && s.cooldown > 0.0
    ensures s.kind == Hitscan <==> s.range.Some?
    ensures s.kind != Hitscan <==> s.speed.Some?
    ensures s.kind == Explosive <==> s.blastRadius.Some?
    ensures s.blastRadius.Some? ==> s.blastRadius.value > 0.0
    ensures s.speed.Some? ==> s.speed.value > 0.0
  {
    match w
    case Pistol => WeaponStats(35.0, 350.0, Projectile, Some(100.0), None, None)
    case Laser => WeaponStats(12.0, 80.0, Hitscan, None, Some(100.0), None)
    case Rocket => WeaponStats(120.0, 1200.0, Explosive, Some(35.0), None, Some(10.0))
  }

  datatype Archetype = Drone | Grunt | Mech

  /** How an archetype attacks. */
  datatype Behavior = Melee | Ranged | Heavy

  datatype ArchetypeStats = ArchetypeStats(
    hp: real, speed: real, score: int, radius: real,
    attackRange: real, damage: real, attackRate: real, behavior: Behavior)

  function Profile(a: Archetype): (s: ArchetypeStats)
    ensures s.hp > 0.0 && s.score > 0 && s.radius > 0.0 && s.speed > 0.0
    ensures s.attackRange > 0.0 && s.damage > 0.0 && s.attackRate > 0.0
    ensures s.behavior == Melee <==> a == Drone
    ensures s.behavior == Heavy <==> a == Mech
  {
    match a
    case Drone => ArchetypeStats(40.0, 10.0, 50, 0.8, 2.0, 10.0, 1000.0, Melee)
    case Grunt => ArchetypeStats(100.0, 4.0, 100, 1.2, 30.0, 15.0, 2000.0, Ranged)
    case Mech => ArchetypeStats(300.0, 1.5, 300, 2.5, 50.0, 40.0, 3000.0, Heavy)
  }
}
