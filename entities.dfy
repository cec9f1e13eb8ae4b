/** The records of the simulation: enemies, projectiles, particles, obstacles. */
module Entities {
  import opened Base
  import opened Config

  /** An enemy of the registry; `pos` is the centre of its visual. */
  datatype Enemy = Enemy(id: string, hp: real, maxHp: real, arch: Archetype, lastAttack: real, pos: Vec3)

  /**
   * A projectile fired by the player. `blastRadius` and `gravity` are present
   * only where the weapon table gives them; `active` is set at launch.
   */
  datatype PlayerProjectile = PlayerProjectile(
    pos: Vec3, vel: Vec3, kind: WeaponKind, damage: real,
    blastRadius: Option<real>, gravity: Option<real>, active: bool)

  /** A launched player projectile: never hitscan, and an explosive knows its radius. */
  predicate WellFormed(p: PlayerProjectile) {
    p.kind != Hitscan && (p.kind == Explosive ==> p.blastRadius.Some? && p.blastRadius.value > 0.0)
  }

  datatype EnemyProjectile = EnemyProjectile(pos: Vec3, vel: Vec3, damage: real)

  datatype Particle = Particle(pos: Vec3, vel: Vec3, life: real, scale: real)

  /** An axis-aligned box, given by its least and greatest corners. */
  datatype Box = Box(min: Vec3, max: Vec3)

  /** A static obstacle; its box may be missing. */
  datatype Obstacle = Obstacle(box: Option<Box>)

  /** The part of the state that damage to enemies changes: the registry and the score. */
  datatype Arena = Arena(enemies: seq<Enemy>, score: int)
}
