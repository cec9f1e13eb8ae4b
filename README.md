# Arena shooter simulation core, in Dafny

This project models the frame-stepped simulation inside `game.js`, a
browser first-person arena shooter, with the rendering stripped away. The
state of one session is the class `Simulation.SimulationState`. It holds:

- the player record: hp, maxHp, score, equipped weapon, last shot time, the
  game-over latch, the jump flag, the velocity and the eye position;
- the enemy registry;
- the player-projectile, enemy-projectile and particle lists;
- the obstacle boxes.

The source's transitions are methods on that class, with the same loops,
the same reverse-index passes with in-place replacement and removal, and
the same branches. The model covers:

- the cooldown-gated shot: hitscan laser, pistol and rocket;
- damage to enemies, with removal and scoring;
- the rocket's area sweep over a snapshot of the registry;
- damage to the player, with the game-over latch, and reset;
- enemy steering and attack gating, and enemy projectiles;
- the projectile and particle passes;
- the player's box-overlap test and the axis-by-axis move with revert;
- gravity, the floor and the jump;
- the spawner.

Each method's contract gives its whole new state in terms of pure
specification functions, which are written over values in separate modules:

| module | contents |
|---|---|
| `Config` | the weapon and enemy tables |
| `Collision` | the overlap test and the checked move |
| `Combat` | damage, falloff, the area sweep, the laser's target choice, the launch |
| `Ballistics` | the projectile folds |
| `EnemyAI` | one enemy's turn, and the spawner's choice |
| `Particles` | particle decay |
| `Movement` | heading, velocity update, slide and drop |

Lemmas state what the source promises about those functions.

Numbers are exact `real`s. Euclidean distance and vector normalisation come
from the vector library, so they are a given pair of functions
(`Base.Geometry`). The clock, the random numbers and the view or raycast
results are method parameters.

Where the design description of the game and the code disagree, the model
follows the code:

- Enemy hp is never clamped. Only the player's hp is clamped at zero.
- The pistol and the rocket leave at 1.5 times the weapon speed. The spawn
  offset scales the direction vector in place (`multiplyScalar(1.5)`), and
  the velocity then scales that same vector by the speed.
- A projectile's `active` flag is set at launch and never cleared. The skip
  of inactive projectiles is modelled, but it never fires on a launched
  projectile.
- A rocket that goes below the floor counts as a hit. Its removal therefore
  deals no area damage. A rocket explodes without contact only when it
  leaves the 200-unit reach.
- On enemy contact, a rocket deals only its area damage, with no extra
  direct hit.
- A jump adds 18 to the vertical velocity. It does not set the velocity
  to 18.
- Steering uses the normalised direction from the enemy to the player. An
  enemy's projectile starts half a unit above the enemy's centre and aims
  at the player's current eye, with no lead.

## Model

| member | source | states |
|---|---|---|
| Config.SlotWeapon | game.js:859-861 | keys 1, 2 and 3 select a weapon and no other key does; the selected weapon's slot is the key (inverse of `Slot`) |
| Config.Arsenal | game.js:11-15 | the weapon table: every weapon has positive damage and cooldown; a weapon is hitscan exactly when it has a range, has a speed (a positive one) exactly when it is not hitscan, and has a blast radius (a positive one) exactly when it is explosive |
| Config.Profile | game.js:18-22 | the enemy table: positive hp, score, radius, speed, attack range, damage and rate; only the drone is melee and only the mech heavy |
| Collision.Collides | game.js:314-329 | the scan is true exactly when some obstacle with a box overlaps the player's box of [x±0.5] × [y−1.5, y+0.5] × [z±0.5] |
| Collision.Step | game.js:664-677 | an axis move is blocked exactly when the moved box collides; a blocked move puts the player back exactly where it was, an unblocked one stands |
| Collision.StepStaysClear | game.js:664-677 | a checked move never takes a player who was clear into an obstacle |
| Combat.Hit | game.js:566-594 | hp drops by exactly the amount with no clamp; at hp <= 0 the enemy leaves the registry and the score rises by its archetype's score; otherwise size and score stay and only that enemy's hp changed |
| Combat.HitKeepsOthers | game.js:591 | every other enemy is kept, in its order: earlier ones at their index, later ones shifted up by one on a removal |
| Combat.HitKeepsAlive | game.js:588-591 | after a hit, every registered enemy still has positive hp |
| Combat.Falloff | game.js:724-725 | the falloff damage × (1 − d/radius) is the full damage at the centre, in (0, damage] inside the radius, and never positive at the radius or beyond (where the sweep does not apply it) |
| Combat.BlastAll | game.js:722-727 | every enemy of the pre-sweep snapshot closer than the blast radius loses exactly the falloff, every other enemy is untouched |
| Combat.SurvivorsMembers | game.js:588-591 | an enemy survives removal exactly when it was in the registry with positive hp |
| Combat.SurvivorsAppend | game.js:591 | removal keeps the survivors in order (it distributes over concatenation) |
| Combat.BountyPaysForFallen | game.js:588-592 | the score paid is never negative, and it is zero exactly when nobody was removed |
| Combat.SurvivorsOfAlive | game.js:588-592 | in a registry of live enemies, removal removes nothing and pays nothing |
| Combat.AreaDamage | game.js:722-727 | an explosion: `BlastAll` on the snapshot, then removal and payment; characterised by `AreaDamageOn` and `AreaDamageKeeps`, and `Explode` is proved equal to it |
| Combat.AreaDamageOn | game.js:722-727 | what an explosion does to one enemy: out of range it stays; in range it stays with exactly the falloff taken off, or is gone when that leaves hp <= 0 |
| Combat.AreaDamageKeeps | game.js:722-727 | an explosion keeps the registry alive, never grows it, never lowers the score, and changes the score exactly when it removes someone |
| Combat.Wounded | game.js:598-599 | the player's hp becomes max(0, hp − amount): never negative, zero exactly when hp − amount <= 0, and otherwise exactly hp − amount |
| Combat.WoundedTwice | game.js:597-599 | two clamped non-negative hits equal one clamped hit of their sum |
| Combat.HitscanImpact | game.js:404-416 | the laser damages the nearest intersected enemy exactly when that hit is within range and refers to an enemy; a nearest hit in range on an object without an enemy reference (a health-bar plane) is a stray that damages nobody; world hits count only when no enemy was intersected |
| Combat.Launch | game.js:418-443 | a launched projectile carries the weapon's kind and damage, gravity 15 and a blast radius only for the rocket, starts 1.5 ahead of the eye, and flies at 1.5 times the weapon speed along the aim |
| Ballistics.FirstContact | game.js:717-718 | the scan finds the first enemy, in registry order, within its radius plus 0.5 of the projectile, or reports that none is |
| Ballistics.Fly | game.js:703-704 | flight changes only position and velocity; without gravity the velocity is kept; a well-formed projectile stays well formed |
| Ballistics.Resolve | game.js:707-752 | one moved player projectile's collision and removal; what it does is stated by `ResolveSpec` and `ResolveKeeps` |
| Ballistics.ResolveSpec | game.js:707-752 | a projectile is removed exactly on a floor hit, an enemy contact or beyond 200; a floor hit deals no damage; on contact an explosive deals only its area damage and any other projectile hits the first enemy in contact; an explosive explodes without a hit only when it leaves the reach |
| Ballistics.ResolveKeeps | game.js:707-752 | resolving a projectile keeps the registry alive, never grows it and never lowers the score |
| Ballistics.Volley | game.js:699-753 | the whole reverse pass over the player projectiles as a fold; its properties are `VolleyKeeps` and `VolleyShape`, and `UpdatePlayerProjectiles` is proved equal to it |
| Ballistics.VolleyKeeps | game.js:699-753 | the whole player-projectile pass keeps the registry alive, never grows it and never lowers the score |
| Ballistics.VolleyShape | game.js:699-753 | the pass never adds projectiles and keeps only well-formed ones, and active ones when all were active |
| Ballistics.Bolts | game.js:756-773 | the enemy projectiles kept after a frame, moved, in their order; characterised by `BoltsMembers` |
| Ballistics.BoltsMembers | game.js:756-773 | the enemy-projectile pass never adds projectiles; one is kept exactly when, moved, it neither came within 1.0 of the player nor went below 0 or beyond 100, so none that hit is kept |
| Ballistics.BoltDamage | game.js:760-766 | the damage the enemy projectiles that reach the player deal in a frame; bounded by `BoltDamageBounds` |
| Ballistics.BoltDamageBounds | game.js:760-766 | the damage enemy projectiles deal in a frame is never negative, and it is zero when none reaches the player |
| EnemyAI.BoltSpeed | game.js:558 | an enemy projectile's speed is 20 exactly for the heavy archetype (the mech) and 40 for every other |
| EnemyAI.Bolt | game.js:544-564 | an enemy projectile starts half a unit above its origin, flies along the unit direction from its origin to the target at `BoltSpeed`, and carries the archetype's positive damage |
| EnemyAI.Approach | game.js:516-524 | an enemy's step of speed × delta along the unit direction to the player; `Turn` states exactly when it is taken |
| EnemyAI.Turn | game.js:503-540 | a non-melee enemy inside 0.7 of its attack range holds position, every other enemy steps towards the player at its speed; an attack happens exactly when the rate has elapsed and the player is in range (melee also needs distance < 2); melee strikes for the archetype's damage, the others fire from where they stand; `lastAttack` changes exactly when an attack happens; nothing else changes |
| EnemyAI.Launches | game.js:536-537 | a pass fires at most one projectile per enemy, all with positive damage, and none when every enemy is melee |
| EnemyAI.Blows | game.js:531-532 | the melee damage of a pass is never negative, and zero when no enemy is melee |
| EnemyAI.Advance | game.js:502-541 | the pass keeps every enemy at its index with its turn applied |
| EnemyAI.Choose | game.js:454-456 | a roll below 0.6 is a drone, from 0.6 to below 0.9 a grunt, 0.9 or more a mech |
| EnemyAI.Recruit | game.js:473-492 | a new enemy has hp = maxHp = its archetype's (positive) hp, has never attacked, and stands one unit above its radius |
| Particles.Age | game.js:827-830 | one particle's frame: moved by velocity × delta, life down by 2 × delta, scale × 0.9; `DecayedMembers` states removal in its terms |
| Particles.Decayed | game.js:825-837 | the particle pass never adds particles and keeps only particles with positive life |
| Particles.DecayedMembers | game.js:826-835 | a particle is kept exactly when, aged, its life is still positive |
| Particles.DecayedAppend | game.js:826-835 | decay works particle by particle, so the survivors keep their order |
| Particles.DecayedKeepsAll | game.js:829-835 | no particle is removed exactly when every particle still has life after aging |
| Movement.Heading | game.js:636-638 | the normalised key direction; stated by `HeadingSpec` |
| Movement.Impelled | game.js:632-659 | the velocity after damping, gravity and the key impulse; carried without properties of its own |
| Movement.Slide | game.js:663-677 | the two checked horizontal moves; stated by `SlideSpec`, and `Stride` is proved equal to it |
| Movement.Drop | game.js:679-686 | the vertical move with the floor clamp; stated by `DropSpec`, and `Fall` is proved equal to it |
| Movement.Moved | game.js:632-686 | a frame's movement: `Impelled`, then `Slide`, then `Drop`; `MovePlayer` is proved equal to it |
| Movement.HeadingSpec | game.js:636-638 | the input direction points the way the held keys say (opposite keys cancel), has length one when any key counts, and is zero exactly when both key pairs cancel |
| Movement.SlideSpec | game.js:663-677 | the two horizontal moves never take a clear player into an obstacle; a blocked axis has zero velocity, an unblocked one keeps its velocity; with both blocked the player has not moved |
| Movement.DropSpec | game.js:679-686 | after the vertical move the player is never below height 2; it landed exactly when the free move went below 2, and then its vertical velocity is zero; the horizontal position and velocity are untouched |
| Simulation.SimulationState.constructor | game.js:50-67 | a new session: hp 100 of 100, score 0, pistol, no shot yet, not over, at rest at the origin at eye height 2, empty lists, the generated obstacles |
| Simulation.SimulationState.SelectWeapon | game.js:859-861 | a number key 1-3 equips its weapon, other keys change nothing; the cooldown clock is not touched |
| Simulation.SimulationState.GameOver | game.js:886-887 | the game-over latch is set |
| Simulation.SimulationState.TakeDamage | game.js:597-619 | for the non-negative amounts every caller passes, hp becomes max(0, hp − amount); game over runs exactly when hp <= 0 and the game was not yet over, and the latch stays set |
| Simulation.SimulationState.ResetGame | game.js:906-925 | hp 100, score 0, pistol, empty enemy and projectile lists, the latch cleared, the player back at the origin at height 2; the rest of the state stays |
| Simulation.SimulationState.DamageEnemy | game.js:566-595 | the registry and score become what `Combat.Hit` says; the result tells whether the enemy was removed |
| Simulation.SimulationState.Explode | game.js:722-727 | the sweep over a snapshot, calling `DamageEnemy` on each enemy in range while the live registry shrinks, ends exactly at `Combat.AreaDamage` of the registry before it |
| Simulation.SimulationState.Sweep | game.js:722-727 | the loop over the snapshot: starting from the registry before the blast, it leaves the registry and score exactly where `SweepAt` puts them after the last snapshot enemy, and keeps `Valid` |
| Simulation.SimulationState.SweepOne | game.js:723-726 | one enemy of the sweep, damaged at its index in the live registry, advances the sweep by one |
| Simulation.SimulationState.Shoot | game.js:361-445 | inside the cooldown nothing changes; otherwise the clock becomes `now`; the laser damages exactly the enemy `HitscanImpact` chooses (nobody on a stray or world hit) and adds no projectile; the pistol and the rocket append exactly their launched projectile and damage nobody |
| Simulation.SimulationState.Trigger | game.js:874-878 | a shot is attempted exactly when the pointer is locked and the game is not over, and then the state changes exactly as `Shoot` states; otherwise nothing changes |
| Simulation.SimulationState.ShootEnemyProjectile | game.js:544-564 | exactly one enemy projectile is appended |
| Simulation.SimulationState.UpdateEnemies | game.js:499-542 | the reverse pass leaves the registry as `Advance` says, appends the projectiles of `Launches`, and lowers hp by the melee damage of `Blows`, clamped, with the game-over latch kept |
| Simulation.SimulationState.EnemyTurn | game.js:503-540 | one enemy's turn advances the reverse pass by one enemy |
| Simulation.SimulationState.Act | game.js:528-540 | a melee strike goes through `TakeDamage`, a shot appends its projectile, nothing else changes |
| Simulation.SimulationState.ResolveShot | game.js:706-752 | the in-place collision part of a projectile's frame has exactly the effect and removal verdict of `Ballistics.Resolve` |
| Simulation.SimulationState.UpdatePlayerProjectiles | game.js:699-753 | the reverse pass with in-place flight and `splice` leaves the registry, the score and the list exactly as `Ballistics.Volley` says |
| Simulation.SimulationState.ProjectileTurn | game.js:700-752 | one projectile's turn advances the reverse pass by one projectile |
| Simulation.SimulationState.Flight | game.js:700-752 | an active projectile moves in place and is spliced out exactly when `ResolveShot` removes it |
| Simulation.SimulationState.UpdateEnemyProjectiles | game.js:756-773 | the reverse pass leaves exactly the list `Ballistics.Bolts` says and lowers hp by `BoltDamage`, clamped, with the game-over latch kept |
| Simulation.SimulationState.BoltHit | game.js:758-766 | a projectile that reaches the player deals its damage through `TakeDamage` once |
| Simulation.SimulationState.BoltMove | game.js:758-772 | a projectile is moved in place and spliced out exactly when it hit, fell below the floor or left the reach |
| Simulation.SimulationState.UpdateProjectiles | game.js:697-774 | the player projectiles, then the enemy projectiles, as the two passes above |
| Simulation.SimulationState.UpdateParticles | game.js:825-837 | the reverse pass with in-place aging and `splice` leaves exactly the list `Particles.Decayed` says |
| Simulation.SimulationState.CheckPlayerCollision | game.js:314-329 | the early-return scan is true exactly when some obstacle with a box overlaps the player's box |
| Simulation.SimulationState.TryMove | game.js:664-669 | a camera-relative move, undone when it collides, ends as `Collision.Step` says |
| Simulation.SimulationState.MovePlayer | game.js:632-686 | the frame's velocity update, both checked axis moves and the fall end as `Movement.Moved` says; a landing allows a jump |
| Simulation.SimulationState.Stride | game.js:663-677 | the sideways and then the forward move, each undone and its velocity component zeroed when blocked, end as `Movement.Slide` says |
| Simulation.SimulationState.Fall | game.js:679-686 | the unchecked vertical move with the floor clamp ends as `Movement.Drop` says, and a landing allows a jump |
| Simulation.SimulationState.Animate | game.js:630-692 | a frame changes nothing unless the game is active and not over; a live frame moves the player as `Movement.Moved` says, then leaves the registry, score and player projectiles as `Volley` of the registry after `Advance` at the new eye, the enemy projectiles as `Bolts` of those plus `Launches`, hp lowered by `Blows` then `BoltDamage` (clamped), the particles as `Decayed`, game over exactly at hp 0, and the player at or above the floor; so a frame never heals, never lowers the score, never adds enemies, and leaves the weapon, the clock and the obstacles alone |
| Simulation.SimulationState.LiveFrame | game.js:631-691 | the live frame's new state as `Animate` states it |
| Simulation.SimulationState.UpdateSystems | game.js:689-691 | the enemy pass, both projectile passes and the particle pass in that order, each as its own method states, with the eye where the player now is |
| Simulation.SimulationState.EnemyPhase | game.js:689 | exactly what `UpdateEnemies` states, and so hp never rises and the registry keeps its size |
| Simulation.SimulationState.ProjectilePhase | game.js:690 | exactly what `UpdateProjectiles` states, and so hp never rises, the score never falls and the registry never grows |
| Simulation.SimulationState.Jump | game.js:847-851 | with the jump flag set, 18 is added to the vertical velocity and the flag is cleared; without it nothing changes |
| Simulation.SimulationState.SpawnTick | game.js:214-216 | an enemy is added exactly when the game is active and fewer than 20 are registered, at the end, built as `spawnEnemy` (game.js:449-497) builds it, which is `Recruit`; so a registry within the cap stays within it |

All methods that change state keep the class invariant `Valid`:
- the player's hp stays within [0, maxHp], maxHp is the 100 the player record starts with, and zero hp means the game is over;
- every registered enemy is alive;
- every player projectile is well formed;
- enemy projectiles never heal.

## Left out

- Rendering is left out: the Three.js scene, meshes, lights, materials, the health bars and their colours, `generateLevel` and `updateWeaponModel`. The obstacle list is given to the constructor.
- Audio, the DOM overlay and HUD, the hitmarker, pointer-lock, the event listeners and resize are I/O. `onMouseDown` becomes `Trigger` with the lock state as a parameter. `onKeyDown` becomes `Jump` and `SelectWeapon`. The held movement keys are a `Keys` parameter, since `onKeyUp` only resets them.
- Raycasting, `lookAt`, `controls.moveRight`/`moveForward`, `normalize`, `distanceTo` and the spawner's trigonometric placement are library calls. The model takes their results as inputs:
  - hit lists for the laser;
  - the camera's right and forward vectors;
  - the `Geometry` distance and unit functions;
  - the spawn coordinates.
- Square roots are not computed. The heading's diagonal factor 1/√2 is a parameter `invSqrt2`, and `HeadingSpec` assumes it squares to one half.
- Timers are inputs: `requestAnimationFrame`, `performance.now` and the `setInterval` spawner. `now`, `delta` and the `isGameActive` flag are parameters, and `SpawnTick` is one tick of the interval.
- EnemyAI.Turn: the source reads `performance.now()` afresh for each enemy. The model uses one `now` for the whole pass.
- VFX are left out: explosions' random particles, the laser beam, the muzzle flash, the impact effects and the recoil. The particle pass is modelled over whatever particles are present, but particle creation is not.
- The exponential velocity damping, the key impulse and the particle scale × 0.9 are carried as real-valued assignments. No properties are proved about them.
- Arithmetic is exact real arithmetic, not IEEE floating point. In particular, a reverted axis move returns exactly to the earlier position, which floating point need not do.
- Movement.Moved: only its parts are specified (`SlideSpec`, `DropSpec`). The footstep sound decision that shares the block is audio and is left out.
- Simulation.SimulationState.TakeDamage: requires a non-negative amount. The source accepts any number, but every caller passes an archetype's damage, which is positive; a negative amount could raise hp above maxHp.
- A laser hit on a health-bar plane is modelled as a stray impact that damages nobody. In the source the damage call throws on the missing enemy reference after the clock is stamped; the exception's report is I/O.
