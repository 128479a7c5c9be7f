# so-much-for-subtlety: the per-frame game logic in Dafny

This project models the discrete per-frame logic of a 2D platformer built on Bevy and avian2d. Characters are driven by gamepads and a keyboard. The model covers five parts:

- The input systems turn device readings into an ordered bus of `PlayerAction` events (`Move`, `Jump`, `Aim`, `Fire`).
- The movement resolver drains that bus against the character controllers.
- Three per-frame stages run on the controllers: damping, grounded detection, and aim-and-fire.
- `spawn_character` binds gamepads to new characters through the player-assignment table.
- `move_objects` advances projectiles and despawns them once their lifetime has run out.

The engine's entity-component store is reduced to what these systems touch: maps from entity handles (`nat`) to component records, the guns as a sequence in query order, the player assignments as a map, and a counter that allocates fresh entity handles.

Layout:

- `engine.dfy` (module `Engine`): entity handles, vectors, gamepad readings, and the transcendental functions. `atan2`, `cos`, `sin` and pi are function values inside a `Trig` record and are left uninterpreted.
- `player.dfy` (module `Player`): the content of `src/player.rs` as functions on the component maps, with the lemmas about them. It also holds `Player.Gun` and `Player.Projectile`, the components of `src/weapons.rs:5-12`, because the aim stage reads guns and spawns projectiles. `Gun` is a marker component; the model's `Gun` record adds the gun entity's `Parent` and the rotation of its `Transform`. `Projectile` has the source's `velocity` and `lifetime`, plus the translation and rotation of the projectile entity's `Transform`.
- `game.dfy` (module `Game`): the content of `src/game.rs`, namely character spawning with the assignment table, and the projectile lifecycle.
- `input.dfy` (module `Input`): the content of `src/input.rs`, namely gamepad and keyboard translation.
- `app.dfy` (module `App`): the class `World`, and the world as a value (`Scene`) with one transition function per group of systems (`AfterKeyboard`, `AfterSimulate`, `AfterSpawn`, `AfterMovement`). `World` holds the components as mutable fields and has one method per system. Each method runs its source's loop and is proved equal to the specification function of `Player`, `Game` or `Input`. `World.Frame` chains the systems in the order the plugin registers them. The `World` methods' contracts relate the state after the call to the state before it, so they are stated over `old(...)`; each method delegates to a heap-free method whose contract ties it to a specification function. `World.Valid` is the world's invariant: every handle in use is below the counter, so the counter yields fresh handles; each character has at most one gun, every binding names a live character, and no character is bound under two keys.

Scalars (`f32` in the source) are modelled as `real`. Rotations (quaternions about z) are modelled as their z angle. Deferred `Commands` (spawn, despawn, inserting and removing the `Grounded` marker) take effect when the stage that issued them ends. This matches the sync points that `.chain()` places between the systems.

## Model

| member | source | states |
|---|---|---|
| Engine.Reading | src/input.rs:20 | A missing reading counts as 0.0, and a present one counts as its value (`unwrap_or(0.0)`). |
| Player.DefaultMovement | src/player.rs:120-124 | The default bundle has acceleration 30, damping 0.9, jump impulse 200, identity aim, a slope bound of 0.45·pi and a latch of 0. |
| Player.FromBundle | src/player.rs:100-118 | A character built from a bundle takes each tuning value from the bundle and has a slope bound. It starts at rest and airborne at the given position. |
| Player.Resolve | src/player.rs:181-205 | An event whose target is not a controller changes nothing. No event touches a controller other than its target. `Move` adds `dir·accel·dt` to `vel.x` and changes nothing else. `Jump` sets `vel.y` to the impulse if the target is grounded and is a no-op if it is not; it never touches `vel.x`. `Aim` sets only the aim, to `atan2(y, x) + pi/2`. `Fire` sets only the latch, to 1.0. |
| Player.ResolveAll | src/player.rs:180-206 | Draining the bus never adds or removes a controller. |
| Player.ResolveAllUntargeted | src/player.rs:180-206 | A controller that no event targets ends the drain unchanged. |
| Player.ResolveAllDropsMissing | src/player.rs:183-201 | A bus whose targets are all missing leaves every controller unchanged. |
| Player.ResolveAllKeepsTuning | src/player.rs:180-206 | Events never change a controller's acceleration, damping, jump impulse, slope bound, grounded state or position. |
| Player.ResolveAllVelocityX | src/player.rs:182-186 | Moves add up. The final `vel.x` is the initial `vel.x` plus the sum of all Move directions for the target, times acceleration, times dt. |
| Player.ResolveAllVelocityY | src/player.rs:187-193 | The final `vel.y` is the jump impulse if the target is grounded and some Jump targets it. Otherwise it is the initial `vel.y`. |
| Player.ResolveAllAim | src/player.rs:194-199 | The final aim is the angle of the last Aim for the target. With no such Aim, the previous aim persists. |
| Player.ResolveAllFire | src/player.rs:200-204 | The final latch is 1.0 if some Fire targets the controller. Otherwise it is the initial latch. |
| Player.AimIdempotent | src/player.rs:194-199 | Two identical Aim events in a row have the same effect as one. |
| Player.DampAll | src/player.rs:254-258 | Every controller's `vel.x` is multiplied by its own damping factor. Nothing else changes, including `vel.y`, and no controller is added or removed. |
| Player.DampingNonExpansive | src/player.rs:254-258 | With a damping factor in [0, 1], `abs(vel.x)` never grows and its sign never flips. |
| Player.IsGrounded | src/player.rs:271-277 | A body is grounded iff some hit angle is within the slope bound. With no bound, it is grounded iff there is at least one hit. |
| Player.UpdateGroundedAll | src/player.rs:268-284 | Every controller with shape hits gets the marker exactly when `IsGrounded` holds for its hits. Controllers without hits are left alone. No other field changes. |
| Player.GroundedIsMemoryless | src/player.rs:279-283 | When every controller has hits, the stage's result does not depend on the previous grounded markers. |
| Player.AimAngle | src/player.rs:196-197 | The aim is the stick angle turned a quarter turn: taking pi/2 back off it gives atan2(y, x). |
| Player.MuzzleVelocity | src/player.rs:224-225 | Given cos²+sin² = 1, the launch velocity has length 500 for every aim. |
| Player.AimedLaunch | src/player.rs:194-225 | A bullet fired after an Aim(x, y) flies at the angle atan2(y, x): the quarter turn added when aiming is taken back at launch. |
| Player.Bullet | src/player.rs:216-246 | A projectile starts at its character's position, with the character's aim as rotation and 2.0 s of lifetime. Given cos²+sin² = 1, it leaves at speed 500. |
| Player.AimedGuns | src/player.rs:215-222 | Each gun whose parent is a controller takes the parent's aim as its rotation. Other guns are unchanged. No gun's identity or parent changes. |
| Player.ClearedLatches | src/player.rs:221-248 | Every controller that parents a gun ends with latch 0, whether or not it fired. Every other controller is unchanged. |
| Player.Shots | src/player.rs:223-247 | The stage spawns no more projectiles than there are guns. |
| Player.ShotsCount | src/player.rs:223-247 | The stage spawns exactly one projectile per gun whose parent's latch is set. |
| Player.ShotsInGunOrder | src/player.rs:215-247 | The spawns come in gun order: the bullet of a firing gun sits right after the bullets of the firing guns before it. With `ShotsCount`, this fixes the whole queue. |
| Player.FiringGunsShoot | src/player.rs:223-233 | A gun whose parent's latch is set spawns that parent's projectile. |
| Player.ShotsComeFromFiringGuns | src/player.rs:223-233 | Every spawned projectile comes from a gun whose parent's latch was set. |
| Player.ShotsNoneFire | src/player.rs:223-247 | With no latch set, the stage spawns nothing. |
| Player.EnumerateHandles | src/player.rs:227-246 | The queued spawns take exactly the handles `base` to `base + n - 1`, the k-th spawn under `base + k`. |
| Game.NewCharacter | src/game.rs:152-160 | A spawned character has acceleration 1250, damping 0.92, the given jump impulse, a slope bound of 30 degrees in radians and latch 0. It starts at rest and airborne at (50, -100). |
| Game.SpawnFor | src/game.rs:148-179 | A spawn binds the key to a new character under the next handle, with the spawn tuning, and appends its gun under the handle after: the old guns stay as the prefix, in order and with their rotations. The counter advances by two. |
| Game.SpawnStep | src/game.rs:145-179 | A gamepad's index becomes a key iff South is pressed above 0.1. The roster changes iff it is pressed and the index is not yet a key. |
| Game.SpawnAll | src/game.rs:144-181 | Spawning over the gamepads only adds: keys, characters and guns are never removed, and the counter never goes back. |
| Game.KeyboardSpawn | src/input.rs:76-109 | Enter binds key 5, unconditionally, to a new character under the next handle, with jump impulse 800. It appends that character's gun and keeps every existing gun, with its rotation, as the prefix. |
| Game.SpawnForInjective | src/game.rs:147-178 | After a spawn, distinct keys still name distinct characters. This holds whether the key was free, as the gamepad guard ensures, or already bound, as for the keyboard's key 5: the character it named before loses that binding. |
| Game.SpawnForFacts | src/game.rs:148-179 | One spawn keeps the roster valid and uses handles that were not in use before. It adds exactly one character with a gun of its own and binds the key to that character. Every other binding and every old character is kept. A character bound under the key before stays alive but loses that binding. |
| Game.SpawnAllValid | src/game.rs:144-181 | Spawning keeps the roster valid: handles stay fresh, each character has at most one gun, every binding names a live character, and no character is the target of two keys. |
| Game.SpawnAllIgnoresBound | src/game.rs:147 | Presses from gamepads that are all bound already change nothing. |
| Game.SpawnAllKeepsOld | src/game.rs:144-181 | No key is unbound or rebound and no character is removed. Guns are only appended, and the handle counter never goes back. |
| Game.SpawnAllKeys | src/game.rs:145-179 | A key is bound after spawning iff it was bound before or some gamepad with that index pressed South above 0.1. |
| Game.SpawnAllNewBindings | src/game.rs:147-179 | Every newly bound key names a character that is new (its handle was free before), has the gamepad tuning, and has a gun. |
| Game.SpawnAllNewBound | src/game.rs:147-179 | Conversely, every new character is bound under a key that was unbound before. There is no spawn without its binding. |
| Game.SpawnAllNewDistinct | src/game.rs:147-179 | Distinct newly bound keys name distinct characters. |
| Game.TwoGamepadsSpawnTwo | src/game.rs:144-181 | When two unbound gamepads press in one frame, two distinct characters are spawned and bound. A later press from either spawns nothing. |
| Game.Advance | src/game.rs:192-195 | A live projectile moves by velocity·dt, loses dt of lifetime, and keeps its velocity and rotation. |
| Game.MoveObjectsAll | src/game.rs:189-199 | A projectile stays iff its lifetime at the start of the frame is positive. A projectile that stays moves by exactly velocity·dt, loses dt of lifetime, and keeps its velocity and rotation. |
| Game.FlyTrajectory | src/game.rs:189-195 | While alive, a projectile after n frames is at start + n·dt·velocity with n·dt less lifetime. There is no drift. |
| Game.FlySurvival | src/game.rs:194-199 | With dt >= 0, a projectile is alive after n frames iff n = 0 or (n-1)·dt < its lifetime. |
| Game.DefaultLifetimeFrames | src/game.rs:194-199 | At dt = 0.5, a 2.0 s projectile survives four frames and is despawned in the fifth. |
| Game.MoveObjectsNFollowsFly | src/game.rs:189-200 | n frames of the stage over the whole map follow each projectile independently. |
| Input.EmissionEmits | src/input.rs:19-37 | A source emits each kind of action exactly when its condition holds. |
| Input.OrderedPairwise | src/input.rs:19-37 | In a run whose ranks rise from each action to the next, any earlier action ranks below any later one, so no kind of action occurs twice. |
| Input.EmissionOrdered | src/input.rs:19-37 | A source's actions come in the order Move, Jump, Aim, Fire, with at most one of each. |
| Input.EmissionCarries | src/input.rs:19-37 | A source emits at most four actions. Each targets its character, and each Move and Aim carries the source's direction and stick values unchanged. |
| Input.EmissionAimThenFire | src/input.rs:69-73 | When Aim and Fire share one condition, the Aim comes directly before the Fire. |
| Input.PadEvents | src/input.rs:16-38 | An unbound gamepad emits nothing. A bound one emits at most four actions, all for its bound character. |
| Input.PadEventsShape | src/input.rs:19-37 | A bound gamepad emits Move iff abs(x) > 0.01, Jump iff South > 0.1, Aim iff abs(rx) > 0.01 or abs(ry) > 0.01, and Fire iff the trigger > 0.1. Its actions come in that order and carry the stick readings. |
| Input.GamepadEvents | src/input.rs:16-39 | Every gamepad event targets a bound character. When no gamepad is bound, there are no events. There are at most four events per gamepad. |
| Input.GamepadInput | src/input.rs:11-40 | The loop over the gamepads emits exactly `GamepadEvents`. |
| Input.Direction | src/input.rs:50-54 | The direction is in {-1, 0, 1}: 1 iff only a right key is held, -1 iff only a left key is held. |
| Input.KeyboardEvents | src/input.rs:56-74 | With nothing bound, the keyboard emits nothing. |
| Input.KeyboardEventsEmit | src/input.rs:56-74 | The keyboard emits Move iff the direction is non-zero, Jump iff Space was just pressed, and Aim and Fire iff F was just pressed. |
| Input.KeyboardEventsShape | src/input.rs:56-74 | Keyboard events all target the driven character, come in rank order and number at most four. Move carries the direction, Aim is (0.5, 0.5), and Aim is directly followed by Fire. |
| Input.KeyboardActions | src/input.rs:50-74 | A target exists iff the assignments are non-empty, and it is one of their values. The events are `KeyboardEvents` for that target. |
| App.AimKeepsConsistent | src/player.rs:209-251 | The aim stage keeps the world consistent. Every handle, the new projectiles' included, stays below the advanced counter. Each character still has at most one gun, and every binding still names a live character. |
| App.AnySupports | src/player.rs:271-277 | The `any` loop returns `IsGrounded`. |
| App.AimGuns | src/player.rs:215-250 | With one gun per character, the gun loop yields `AimedGuns`, `ClearedLatches`, and the queued `Shots` in gun order. |
| App.Drain | src/player.rs:180-206 | The event loop yields `ResolveAll` of the bus. |
| App.DampEach | src/player.rs:255-258 | The damping loop yields `DampAll`. |
| App.GroundEach | src/player.rs:268-284 | The grounded loop yields `UpdateGroundedAll`. |
| App.AdvanceEach | src/game.rs:189-200 | The projectile loop, with the despawns applied afterwards, yields `MoveObjectsAll`. |
| App.PlaceEach | src/player.rs:227-246 | The queued spawns, applied in order, add `Enumerate(next, shots)` and advance the counter by the number of shots. |
| App.SpawnEach | src/game.rs:144-181 | The gamepad loop yields `SpawnAll`. |
| App.World.constructor | src/player.rs:38-42 | The world starts empty, with an empty assignment table (`Default`). |
| App.World.Movement | src/player.rs:164-207 | The controllers become `ResolveAll` of the events, and the world stays valid. |
| App.World.ApplyMovementDamping | src/player.rs:254-259 | The controllers become `DampAll` of the old ones. |
| App.World.UpdateGrounded | src/player.rs:261-285 | The controllers become `UpdateGroundedAll` of the old ones and the hits. |
| App.World.ApplyAimToGun | src/player.rs:209-251 | Guns, controllers and projectiles become `AimedGuns`, `ClearedLatches`, and the old projectiles plus the enumerated `Shots`. The counter advances by one per shot, and validity is kept. |
| App.World.MoveObjects | src/game.rs:184-201 | The projectiles become `MoveObjectsAll` of the old ones. |
| App.World.SpawnCharacter | src/game.rs:137-182 | The roster becomes `SpawnAll` of the old roster, and the world stays valid. |
| App.World.KeyboardInput | src/input.rs:42-111 | The events are the keyboard's, for some bound character if there is one. On Enter the roster becomes `KeyboardSpawn`, which binds key 5 with no check; otherwise it is unchanged. |
| App.World.ReadInput | src/player.rs:15-16 | There is a keyboard target iff the old assignments are non-empty, and it is one of their values. On Enter the roster becomes `KeyboardSpawn` of the old one; otherwise it is unchanged. The events are the keyboard's followed by the gamepads', and the gamepads are read against the assignments after the Enter spawn. Every binding except key 5 on Enter is kept, and the counter never goes back. |
| App.World.Simulate | src/player.rs:17-20 | Grounding, then damping, then aim and fire, then projectile motion. The guns' rotations and the bullets come from the damped, freshly grounded controllers, and the new projectiles are moved in the same frame. The controllers become `ClearedLatches` of those, the guns `AimedGuns`, and the projectiles `MoveObjectsAll` of the old ones plus the new shots. The counter advances by one per shot, no character is added or removed, and the world stays valid (`AfterSimulate`). |
| App.World.Frame | src/player.rs:14-23 | A whole frame is the chain `AfterKeyboard`, `AfterSimulate`, `AfterSpawn`, `AfterMovement`, in the plugin's order. The events are the keyboard's and then the gamepads', read after the Enter spawn. They are drained last, against this frame's grounded markers and after this frame's gamepad spawns. The frame keeps the world valid, so no character is ever the target of two control sources. It keeps every binding other than key 5. With no Enter, it keeps every binding. It never removes a character, and the counter never goes back. |

## Left out

- Rendering, assets, the camera and the level geometry in `setup` are not modelled. They do not affect the game state above.
- The physics engine is not run: rigid-body integration of `LinearVelocity`, gravity (on characters and on dynamic projectile bodies), friction, restitution, density, gravity scale, and collisions. In the model, positions change only where these systems write them.
- The shape caster is not modelled. Each controller's `ShapeHits` is an input: the list of angles between the rotated inverted hit normal and up. How the caster and that angle are computed is not modelled.
- The trigonometry is not modelled. `atan2`, `cos`, `sin`, pi and `Quat::from_rotation_z` are uninterpreted. The muzzle velocity is written as (500·cos(a - pi/2), 500·sin(a - pi/2)). Only cos² + sin² = 1 is assumed where needed.
- `f32` rounding is not modelled; scalars are real numbers.
- The `println!` in the aim stage is not modelled; output has no effect on state.
- Bevy's scheduler and parallelism are not modelled. The systems run strictly in their chained order, and deferred commands apply at the end of each system.
- `HashMap` iteration order is not modelled. `keyboard_input` calls `values().next()` three times on the same unchanged map, and the model makes one arbitrary choice among the values for all three. The choice is not tied to any particular entry.
- The order of query iteration is not modelled. Guns keep one fixed order, which decides only which fresh handles the spawned projectiles get. Controllers and projectiles are maps, so their loop order does not matter.
- Entity allocation is a counter: a character takes `nextId` and its gun takes `nextId + 1`. Bevy's generational entity reuse is not modelled.
- App.AdvanceEach: the translation update of a projectile whose lifetime has run out is skipped, since that projectile is despawned in the same frame and is never seen again.
- Spawn-time physics settings that differ between the gamepad and keyboard spawns (the friction coefficients) are not modelled. The tuning that is modelled still differs: jump impulse 1200 for gamepads, 800 for the keyboard.
- `src/main.rs` (application wiring) and `src/plugin.rs` (not compiled, an earlier variant of the player module) are not part of this model.

## Notes on the code as written

- Projectile lifetime: `move_objects` runs after `apply_aim_to_gun` in the chain, so a new projectile is already advanced, and its lifetime already reduced, in its spawn frame. It is despawned by the first `move_objects` pass whose starting lifetime is at most 0. With L > 0 and dt > 0, and counting the spawn frame's pass as pass 1, that is pass ⌈L/dt⌉ + 1. That pass runs ⌈L/dt⌉ frames after the spawn frame, one pass after the lifetime first reaches 0 or less. For L = 2 and dt = 0.5, the spawn frame and the three frames after it bring the lifetime down to 0, and the fourth frame after the spawn despawns it. `Game.FlySurvival` and `Game.DefaultLifetimeFrames` state this in passes.
- The keyboard's Enter spawn binds key 5 with no `contains_key` check. A binding under key 5 is replaced, and the character it named stays alive but loses that binding. Key 5 is also the index a gamepad entity can have, so the keyboard spawn and a gamepad can share a key. `Game.SpawnForFacts` and `App.World.ReadInput` state this, and `Game.SpawnForInjective` shows that the overwrite still leaves no character bound under two keys.
- The keyboard targets whatever entry `values().next()` yields. That is not necessarily the first character bound, and the model does not assume it is.
