# Gameplay rules of a 2D platformer, in Dafny

This project models the per-frame gameplay rules of a small Bevy platformer
with an LDtk level. The game's systems become pure step functions over
immutable data:

- ECS queries become maps and sets keyed by entity ids.
- Collision notifications become sequences of `Started(a, b)` / `Stopped(a, b)` events.
- Animation timers become a `finished` flag.
- Panics become `Err` values.

The model covers these parts of the game:

- **PlayerAnimations** (`player_animations.dfy`): the animation state machine.
  - A strict-priority resolver picks the next state from the pending death and hit events and from the player's flags.
  - Entering a state has side effects: the frame resets, sheets swap, the attack flag clears, and a dying player hands off to a separate death sprite.
  - Each sheet has its own frame stepper.
- **PlayerPhysics** (`player_physics.dfy`):
  - Keyboard input sets velocity, the moving flag, facing and climbing.
  - The jump gate, and the switch of gravity scale while climbing.
  - Ground, wall and ladder contact tracking driven by collision events.
  - The death check.
- **Combat** (`combat.dfy`):
  - Player–enemy contact: stomp or hit, and knockback.
  - Melee hits through the player's side sensor.
  - The attack toggle.
  - Hit events that lower the player's health.
- **OutOfBounce** (`out_of_bounce.dfy`): "Dead" zones that kill the player.
- **Enemy** (`enemy.dfy`):
  - The enemy type tag.
  - The patrol route and its bouncing index.
  - Spawn defaults and the walking animation.
- **TutorialPhysics** (`tutorial_physics.dfy`): tutorial triggers. Each has a passed flag, and its hint entities are despawned when the player walks out.
- **Textures** (`textures.dfy`): turning the sprite configuration entries into complete sprite sets.
- **Common** and **LdtkFields**: shared components and the field lookup both tag parsers use.

`f32` quantities are modelled as `real`. `i32` health is modelled as `int`.

## Model

| member | source | states |
|---|---|---|
| LdtkFields.FindField | src/enemy.rs:30-33 | The index of the first field with the identifier; `None` exactly when no field has it. |
| LdtkFields.EnumTag | src/enemy.rs:35-51 | Returns a missing-field error exactly when the field is absent. Returns `Ok` exactly when the first such field holds a set enum value, and that value is what is returned. |
| Enemy.ParseEnemyType | src/enemy.rs:28-52 | "Durt" and "LongHair" are accepted and nothing else is. Field errors pass through; any other tag is `UnknownTag`. The accepted tag is the type's own tag. |
| Enemy.EnemyTagRoundTrip | src/enemy.rs:36-38 | Writing a type's tag as the first field and parsing it back gives the type. |
| Enemy.Present | src/enemy.rs:196 | `iter().flatten()` keeps the set points in their order: there are as many as there are set points, and the set point at position i lands at the count of set points before it. |
| Enemy.BundlePatrol | src/enemy.rs:182-209 | A missing `patrol` field is an error. The route is the own position followed by each set point converted in order, and the start index is 1. A non-points field gives the own position only. |
| Enemy.PatrolStep | src/enemy.rs:69-110 | Routes of at most one point are untouched. An index outside a longer route is an error. Otherwise the enemy moves, and the flip follows the heading (right only for x > 0). Without reversal the index stays and the direction follows the heading. On reversal, index 0 forces Right and the last index forces Left; Right adds one, Left subtracts one, and the index stays inside the route. |
| Enemy.PatrolStaysInBounds | src/enemy.rs:91-104 | From any index inside a route of two or more points, every sequence of steps succeeds and keeps the index inside the route. |
| Enemy.BundledPatrolIsSafe | src/enemy.rs:209 | A bundled route with at least one set point (start index 1) is walked without any out-of-range read. |
| Enemy.SpawnEnemy | src/enemy.rs:247-288 | The translation is kept. The scale becomes (1,1,1) if either axis is below 1 and is kept otherwise, so both axes are at least 1. Health is 2/2, speed 80, not moving, facing right. The collider half extents are half the sheet's size. |
| Enemy.EnemyAnimationFrame | src/enemy.rs:126-142 | The frame moves only when the enemy moves and the timer finished. It wraps to 0 exactly when the next frame equals the sheet size, and stays inside the sheet. |
| Enemy.EnemyAnimationCycles | src/enemy.rs:134-141 | Starting inside the sheet, after `t` finished timers the frame is `(index + t) % count`. |
| Textures.PlayerRows | src/ron_parsers/textures.rs:180 | The row count is the ceiling of items / columns. With zero columns it is 0 for 0 items (the NaN cast) and otherwise the largest `usize` (the saturated cast of infinity). |
| Textures.EnemyRows | src/ron_parsers/textures.rs:262 | The row count is the floor of items / columns; zero columns is an error. |
| Textures.PlayerInfo | src/ron_parsers/textures.rs:174-193 | Width, height, items, image and column count are copied. The padding tops each side up to 64. The offset is (offset, 64 − height). The rows are `PlayerRows` of the items and columns, so they cover the items. |
| Textures.EnemyInfo | src/ron_parsers/textures.rs:256-272 | Fails exactly on zero columns. Otherwise it copies the entry, and the atlas has truncated rows and no padding or offset. |
| Textures.CollectByKind | src/ron_parsers/textures.rs:174-221 | A kind is filed exactly when some entry has it. The entry filed is the last entry of that kind. |
| Textures.PreparePlayerTextures | src/ron_parsers/textures.rs:158-246 | Succeeds exactly when all eight kinds are present, and fails with `MissingPlayerSprite` otherwise. Each sheet is built from the last entry of its kind. |
| Textures.PrepareEnemiesTextures | src/ron_parsers/textures.rs:248-292 | A zero column count anywhere is fatal. Otherwise it succeeds exactly when both Gray and Long are present, each from its last entry. |
| Textures.PrepareTutorialTextures | src/ron_parsers/textures.rs:294-318 | Succeeds exactly when a Movement entry exists, and takes the image of the last one. |
| PlayerAnimations.Steady | src/player/player_animations.rs:253-301 | The chosen state is allowed by the flags, and no allowed state ranks higher in the order attack, climb, wall slide, jump, run, idle. |
| PlayerAnimations.Processor | src/player/player_animations.rs:216-301 | A pending death always leads to `Death(Start)`. A hit without a death leads to `Hit(Start)`. `Hit(Start)` and `Death(Start)` hold with no event pending. Otherwise the state becomes the steady choice, and a request is made exactly when that choice differs from the current state. There is no request without a player. |
| PlayerAnimations.TexturesProcessor | src/player/player_animations.rs:120-211 | Without a change or a player, nothing happens. On a change the surviving player restarts at frame 0 in place, with the state's sheet. `Hit(End)` and `Attack(End)` clear the attack flag, and only `Hit(End)` requests Idle. `Death(Start)` removes the player and adds a visible death sprite with its transform and flip. `Death(End)` with a live player is the `unreachable!` error. |
| PlayerAnimations.LoopFrame | src/player/player_animations.rs:314-321 | A finished timer advances the frame, wrapping once the count is reached. The frame stays inside the sheet. |
| PlayerAnimations.LoopFramesCycle | src/player/player_animations.rs:358-363 | A looping sheet started at 0 is at `ticks % count` after `ticks` finished timers. |
| PlayerAnimations.LoopFramesFrom | src/player/player_animations.rs:378-383 | From frame `i` inside the sheet, `t` finished timers reach `(i + t) % count`. |
| PlayerAnimations.OneShotFrame | src/player/player_animations.rs:416-421 | The sheet is done exactly when the advanced frame reaches the count, and the frame is then 0. Otherwise it advances by one and stays inside the sheet. |
| PlayerAnimations.AttackFrame | src/player/player_animations.rs:416-425 | Without a timer tick the frame stays. A tick before the last frame advances by one with no request. A tick on the last frame requests `Attack(End)` and the frame is then 0. |
| PlayerAnimations.HurtFrame | src/player/player_animations.rs:441-451 | Without a timer tick the frame stays. A tick before the last frame advances by one with no request. A tick on the last frame requests `Hit(End)` and the frame is then 0. |
| PlayerAnimations.ClimbFrame | src/player/player_animations.rs:336-344 | The frame moves only when the timer finished and the speed is beyond ±20. It then moves to `(index + 2) % items`, which stays inside the sheet. An empty climb sheet is the remainder-by-zero error. |
| PlayerAnimations.DeathFrame | src/player/player_animations.rs:474-489 | Without a timer tick the sprite is unchanged. A tick before the last frame advances the index by one. A sprite that completes its sheet is hidden, reports completion and is at frame 0. It keeps its transform and flip and is never removed. |
| PlayerAnimations.DeathSpritesStep | src/player/player_animations.rs:471-491 | Every death sprite steps by its own timer and none is removed. `Death(End)` is requested exactly when some sprite completes. |
| PlayerAnimations.OneShotCompletes | src/player/player_animations.rs:444-450 | A one-shot sheet started at 0 shows frames 0 .. count−1, and completes on exactly the count-th finished timer. |
| PlayerAnimations.OneShotFramesFrom | src/player/player_animations.rs:419-424 | From frame `i`, `t` finished timers with `i + t < count` reach frame `i + t`; with `i + t == count` the sheet completes. |
| PlayerAnimations.DeathLifecycle | src/player/player_animations.rs:184-206 | A death event from any state leads to `Death(Start)`. That change swaps the player for a visible death sprite at the same spot and facing. After `count` timers the sprite is hidden and requests `Death(End)`, which then has no effect. |
| PlayerAnimations.HitLifecycle | src/player/player_animations.rs:146-162 | A hit outranks an attack in progress. `Hit(Start)` shows the hurt sheet from frame 0. The sheet's last frame requests `Hit(End)`, which clears the attack flag and hands back to Idle. |
| PlayerPhysics.SpawnPlayer | src/player/player_physics.rs:73-133 | Health is 10/10, speed 120, and the player is at rest, facing right and unflipped. Nothing is touched, climbing is off, and gravity matches. The translation is kept and the scale is 0.7. |
| PlayerPhysics.DirectionX | src/player/player_physics.rs:156-162 | −1 exactly when Left is held, +1 exactly when only Right is, 0 otherwise. |
| PlayerPhysics.DirectionY | src/player/player_physics.rs:201-207 | +1 exactly when Up is held, −1 exactly when only Down is, 0 otherwise. |
| PlayerPhysics.PlayerMovement | src/player/player_physics.rs:152-211 | Horizontal velocity is the direction times the speed. The moving flag is set exactly when that velocity is nonzero, and is written only when it changes. Facing and flip change only on nonzero motion, and consistently. Climbing clears with no ladder contact and is set by a fresh Up or Down press next to a ladder. While climbing, vertical velocity follows Up/Down. Nothing else changes. |
| PlayerPhysics.PlayerJump | src/player/player_physics.rs:218-225 | A fresh Space press on the ground or on a ladder (and only that) sets the impulse to (0, 65) and stops climbing. Otherwise nothing changes. |
| PlayerPhysics.IgnoreGravityDuringClimbing | src/player/player_physics.rs:435-445 | When the climber changed, gravity is 0 exactly while climbing and 3 otherwise. When it did not change, nothing happens. |
| PlayerPhysics.ControllerTick | src/player/player_physics.rs:152-225 | One frame takes the tracked ladder contacts. Climbing is off without contacts. Health and the attack flag are untouched. |
| PlayerPhysics.ControllerTickKeepsInvariants | src/player/player_physics.rs:438-444 | One frame keeps gravity matched to climbing and the flip matched to facing. |
| PlayerPhysics.ControllerInvariantsPreserved | src/player/player_physics.rs:183-198 | Any number of frames keeps both invariants. |
| PlayerPhysics.ControllerKeepsInvariants | src/player/player_physics.rs:95-125 | From spawn, under any input, gravity is 0 exactly while climbing and 3 otherwise, and the flip always matches the facing. |
| PlayerPhysics.FirstInvolving | src/player/player_physics.rs:331-334 | The position of the first event naming the sensor; no earlier event names it. |
| PlayerPhysics.GroundDetection | src/player/player_physics.rs:330-386 | As written: without a detector owner nothing changes. The first event naming the sensor inserts or removes the other participant, and the frame ends with on-ground unchanged and unwritten. With no such event, on-ground becomes "contact set non-empty", written only on a change. |
| PlayerPhysics.TrackContacts | src/player/player_physics.rs:339-370 | An entity is in the contact set exactly when its latest event with the sensor was `Started`, or when it was in the set and has no event. |
| PlayerPhysics.GroundDetectionDrained | src/player/player_physics.rs:378-386 | The corrected tracker: every event is applied, then on-ground is "set non-empty", written only on a change. |
| PlayerPhysics.GroundDetectionLags | src/player/player_physics.rs:339-341 | As written, a landing leaves on-ground false for the frame, and a second contact in the same frame is lost. The drained tracker records both and lands at once. |
| PlayerPhysics.DrainedContactsAreAdditive | src/player/player_physics.rs:354-373 | With the drained tracker, losing one of two ground contacts keeps the player on the ground. |
| PlayerPhysics.LastWallSignalSplit | src/player/player_physics.rs:302 | Scanning for the last wall event from the end agrees with looking at the first event and then at the rest. |
| PlayerPhysics.WallDetection | src/player/player_physics.rs:301-322 | On-side takes the value of the last `Started`/`Stopped` between a wall and the sensor as second participant, or keeps its value when there is none. |
| PlayerPhysics.WallContactIsNotCounted | src/player/player_physics.rs:312-318 | Touching two walls and leaving one clears on-side. |
| PlayerPhysics.Toggled | src/player/player_physics.rs:398-418 | Insert or remove one id, leaving the others alone. |
| PlayerPhysics.ClimbEvent | src/player/player_physics.rs:395-432 | A climber first-participant with a ladder second gains or loses the ladder. Otherwise the reverse pairing does. Otherwise nothing changes. Climbing flags and other climbers are untouched. |
| PlayerPhysics.DetectClimb | src/player/player_physics.rs:390-433 | Climbers and their flags are kept, and ladder contacts only ever hold ladders. |
| PlayerPhysics.ClimbContactIsSymmetric | src/player/player_physics.rs:397-429 | A ladder contact is recorded the same way in either participant order, and leaving undoes entering. |
| PlayerPhysics.LastClimbSignalSplit | src/player/player_physics.rs:395 | Scanning for the last event that relates a climber and a ladder from the end agrees with looking at the first event and then at the rest. |
| PlayerPhysics.DetectClimbTracksLadders | src/player/player_physics.rs:390-433 | After a frame a climber touches a ladder exactly when the last event relating the two was `Started`, with the first participant tried as the climber first. With no such event, it touches the ladder exactly when it did before the frame. |
| PlayerPhysics.DeathIsSentOnce | src/player/player_physics.rs:447-457 | Hits arrive frame by frame, and each frame's hits are applied before the death check. A player that starts with positive health is sent a death event exactly once if its health ends at or below zero, and never otherwise. A player that starts at or below zero is never sent one. |
| PlayerPhysics.DeadZoneSendsDeath | src/player/player_physics.rs:447-457 | In a frame that applies the hits and then the dead-zone contacts, either write marks the health changed. A living player is then sent a death event exactly when it touched a dead zone or the hits took its health to zero or below. |
| Combat.TakeHit | src/combat.rs:191-194 | Damage is subtracted only from a positive health; max is untouched. |
| Combat.ReceiveDamage | src/combat.rs:186-197 | Max is untouched and a non-positive health never changes. A still-positive result is the start minus the total damage. Health never rises without negative damage. |
| Combat.DamageOvershootsOnce | src/combat.rs:192-193 | With hits of at most `d` points, a positive health ends no lower than `1 − d`: it goes below zero at most once. |
| Combat.UnitHitsFloorAtZero | src/combat.rs:190-196 | `n` unit hits take a positive health to `max(current − n, 0)` and leave a non-positive one alone. |
| Combat.PlayerAttacks | src/combat.rs:199-212 | A fresh LShift press flips an existing attack flag. Otherwise it is unchanged. |
| Combat.CombatEvent | src/combat.rs:121-180 | Only a `Started` between the player and an enemy (second participant looked up first) has any effect, and only on that enemy. A side contact sends one hit of damage 1. Otherwise the enemy loses a point if positive. The player and the enemy are pushed apart with ±120 horizontally and 30 up. The player goes left exactly when it is left of the enemy. |
| Combat.CombatInteraction | src/combat.rs:114-183 | A frame keeps participants and positions. |
| Combat.CombatInteractionHits | src/combat.rs:157-161 | The frame's hit events are one unit hit per side contact. |
| Combat.CombatInteractionWearsEnemies | src/combat.rs:162-164 | Each enemy ends at its health lowered by its contacts from above, never below 0 from a positive start. |
| Combat.CombatIgnoresStopped | src/combat.rs:181 | `Stopped` events change nothing. |
| Combat.Struck | src/combat.rs:51-65 | Only a `Started` event hands the sensor an attackable entity on the opposite side. |
| Combat.AttackEvent | src/combat.rs:37-93 | With an attacking owner, the struck entity loses one point with no floor and is pushed 50 away from the attacker and 30 up. Otherwise nothing changes. |
| Combat.AttackDetection | src/combat.rs:37-93 | The attackables are kept. |
| Combat.AttackDetectionCounts | src/combat.rs:74-75 | While attacking, each attackable loses exactly one point per strike. While not attacking, none changes. |
| OutOfBounce.DeadZoneEvent | src/out_of_bounce.rs:70-81 | A `Started` between the player and a dead zone sets current to 0. Every other event changes nothing; max is never written. |
| OutOfBounce.DeadInteraction | src/out_of_bounce.rs:68-83 | The player exists after the frame exactly when it did before. If some event puts it in a dead zone, it ends at health 0. Otherwise it is untouched. |
| OutOfBounce.DeadInteractionIsIdempotent | src/out_of_bounce.rs:73-77 | The result is the player untouched or at exactly 0. Running the frame again changes nothing. |
| OutOfBounce.OnlyDeadZonesKill | src/out_of_bounce.rs:71-81 | A contact with a non-zone, in either order, and any `Stopped` event leave health alone. |
| TutorialPhysics.ParseTutorialType | src/tutorial/tutorial_physics.rs:35-60 | "Movement" and "Climbing" are accepted and nothing else is. Field errors pass through; any other tag is `UnknownTag`. |
| TutorialPhysics.TutorialTagRoundTrip | src/tutorial/tutorial_physics.rs:43-45 | Writing a type's tag and parsing it back gives the type. |
| TutorialPhysics.FreshTriggerPassedIffEntered | src/tutorial/tutorial_physics.rs:62-66 | A trigger placed from the level starts unpassed, so it ends its first frame passed exactly when the player entered it. |
| TutorialPhysics.Entered | src/tutorial/tutorial_physics.rs:118-134 | A `Started` event marks a trigger exactly when it is a trigger with a player partner. A trigger as first participant settles the event even when its partner is not a player, and then the second participant is never tried. |
| TutorialPhysics.Exited | src/tutorial/tutorial_physics.rs:136-165 | A `Stopped` event removes a trigger exactly when one participant is a trigger and the other a player. The first participant wins when both orders fit. |
| TutorialPhysics.TutorialEvent | src/tutorial/tutorial_physics.rs:116-167 | A trigger becomes passed when it was or the event enters it. Leaving queues the trigger and its hint entities for despawn, and nothing else is queued. |
| TutorialPhysics.TutorialInteraction | src/tutorial/tutorial_physics.rs:116-167 | Triggers and hints are kept, the despawn queue only grows, and passed is never cleared. |
| TutorialPhysics.PassedIffEntered | src/tutorial/tutorial_physics.rs:119-133 | A trigger ends the frame passed exactly when it was passed already or the player entered it. |
| TutorialPhysics.DespawnedIffLeft | src/tutorial/tutorial_physics.rs:137-164 | An entity is queued exactly when it was, or when it is a left trigger or one of that trigger's hints. |
| TutorialPhysics.TutorialVisit | src/tutorial/tutorial_physics.rs:118-164 | A player entering and then leaving passes the trigger and queues it and its hints, whichever participant order each event has. A non-player does neither. |

## Left out

- Enemy.PatrolStep: it does not state the new velocity (`normalize(target - position) * speed`). Its heading is the `Heading` input, because the float geometry is not modelled.
- PlayerPhysics.ControllerTick: its own contract covers only contact tracking, climbing and health. Gravity and facing coherence are stated in `PlayerPhysics.ControllerTickKeepsInvariants` instead, so that each proof stays small.
- Textures.PlayerRows: the row count is the exact ceiling of a real quotient, not the `f32` division and `ceil` the game performs.
- Level-grid collider merging: no such code exists in the repository's gameplay files. `src/map.rs` only registers a placeholder bundle.
- The physics engine: collision detection, impulses turning into motion, and friction. Collision events are given sequences, and impulses are only recorded.
- Timers: every animation timer is a `finished` flag supplied per frame.
- Float vector maths:
  - The enemy's heading is abstracted as `Heading`: the x sign of the normalised vector toward the target, and whether it opposes the current velocity.
  - The `normalize` of a zero vector (NaN, which counts as "not > 0" and so as Left) falls under the same abstraction.
  - `ldtk_pixel_coords_to_translation_pivoted` and the patrol point conversion are the parameters `own` and `toWorld`.
- `f32` rounding: all float quantities are exact reals. The player's atlas row count is modelled as the exact ceiling, except for zero columns.
- `i32` health overflow: it needs about 2^31 hits, and health is modelled as an unbounded `int`.
- Bevy's event readers: each system reads the frame's event list from the start. Double buffering and per-reader cursors are not modelled. Each sensor system models the player's single sensor; a second sensor would find the reader already drained. For the same reason the model does not say whether the events `ground_detection` skips after its early return are read in a later frame: that depends on the reader's cursor.
- System scheduling: the order of systems inside a frame is not fixed by the game. `ControllerTick` uses movement, then jump, then gravity, and `Changed<Climber>` is a `changed` flag.
- Non-cuboid colliders: `combat_interaction_detection` would panic on one. Every collider the game creates is a cuboid, so the model takes half heights directly.
- `TutorialType::default` (`tutorial_physics.rs:26-30`, `Movement`): nothing in the modelled code asks for the default, because a trigger's type always comes from its level field.
- Debug output: the two `println!` calls in `wall_detection` (`player_physics.rs:308`, `player_physics.rs:316`) only print and change no state.
- Asset loading, RON parsing, atlas handles, UI, HUD, audio, camera, menus and plugin wiring.
- Rotation: it is copied through by `spawn_player` and `spawn_enemy` and never inspected.
- `despawn_recursive` of tutorial hint entities also removes their children; the hierarchy is not modelled.
- Death sprite: `Death(End)` only hides the death sprite (`player_animations.rs:488`); nothing removes it.
- Spawning of the ground and side sensor children: only their contact tracking is modelled.

## Findings

| source | as written | input that shows it | evidently intended | confidence | as-written member | corrected member |
|---|---|---|---|---|---|---|
| src/player/player_physics.rs:339-373 | `ground_detection` returns from the whole system after the first collision event that names the ground sensor. That frame skips the `on_ground` recompute, and the later events of the frame are not applied in that frame. | Sensor 1 with no contacts receives `[Started(2, 1), Started(3, 1)]`. Contact 3 is not recorded in that frame, and on-ground stays false that frame. | Apply every event of the frame, then set on-ground to "contact set non-empty". | medium, not executed | PlayerPhysics.GroundDetection (exhibited by PlayerPhysics.GroundDetectionLags) | PlayerPhysics.GroundDetectionDrained (proved in PlayerPhysics.DrainedContactsAreAdditive) |
