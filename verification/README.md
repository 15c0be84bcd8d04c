# Platformer gameplay core, modelled in Dafny

A model of the per-tick gameplay logic of a Bevy 2D platformer: the
sprite-sheet animation stepper and its "animation finished, advance to the
next state" rebinding, the player's locomotion / attack / animation-state
systems, the camera's level fit and dead-zone follow, and the derivation of
the ground colliders. Each Bevy system becomes a pure function of the
components it reads; `f32` quantities are exact `real`s, the frame timer is a
"fired this tick" flag, and the physics controller's output is an input
record `ControllerOutput(grounded, desired)`.

Files, one module each:

- `wrappers.dfy` (`Wrappers`): `Option` and `Result`.
- `entity.dfy` (`Entity`): entity identifiers.
- `geometry.dfy` (`Geometry`): `Vec2` with component-wise `Max`/`Min`, `Abs`, `Clamp`.
- `animation.dfy` (`Animation`): clips, the frame stepper, the post-swap
  correction, the stepper over all sprites with its `Finished` events, and the
  generic finisher over any state type given `next` and `toClip`.
- `player.dfy` (`Player`): the clip table, `movement`, `jump`, `start_attack`,
  `swing_sword`, `rise`, `fall`, `apply_movement_animation`,
  `update_direction`, `update_sprite_direction`.
- `camera.dfy` (`Camera`): `camera_fit_inside_current_level`.
- `level.dfy` (`Level`): the corner-to-collider computation of `setup_level`
  and its four hard-coded ground segments.

Where the Rust code would panic, the model returns a `Result` failure instead
of assuming the case away:

- `Advance` fails with `IndexUnderflow` for a non-looping clip whose `end` is 0,
  because `indices.end - 1` underflows a `usize`, which panics when overflow
  checks are enabled (as in a default debug build). Without them it wraps to
  `usize::MAX` and `Finished` is still sent; the model does not follow that
  wrapped value.
- `FinishOne` fails with `NoSuccessor` where `next().unwrap()` meets `None`.
- `FitLevel` fails with `ClampBoundsInverted` where `f32::clamp` is called
  with a lower bound above the upper bound.

Behaviour of the code worth knowing, which the model follows:

- A non-looping clip clamped on its last frame sends `Finished` again on every
  later firing of its repeating frame timer, not once per exhaustion
  (`ClampedReemits`).
- `animation_finisher` processes every queued event, several for the same
  entity included, each one advancing the state once more (`FinishClosedForm`).
- The post-swap correction tolerates the inclusive band `start..=end`, so an
  index equal to `end` survives it (`Resnap`).
- A positive horizontal request selects `Direction::Left` and a negative one
  `Direction::Right`; the sprite is mirrored exactly for `Right`, so it is
  mirrored exactly when moving left (`MirroredWhenMovingLeft`).
- In the tall-level branch the vertical clamp can receive inverted bounds,
  because the width is rounded to a multiple of 16 before the height is
  derived from it. A 24 by 14 level shows this (`TallClampFault`). The game's
  only level is wide, so the branch is never reached there
  (`CurrentLevelFraming`).

## Model

| member | source | states |
|---|---|---|
| Animation.Advance | src/animation.rs:21-35 | no firing leaves the index alone and sends nothing; a firing below the last frame steps by one; at the end a looping clip wraps to `start` and never sends `Finished`; a non-looping clip clamps to `end-1` and sends `Finished`; it fails exactly when a non-looping clip with `end == 0` fires |
| Animation.AdvanceKeepsRange | src/animation.rs:24-34 | for a non-empty clip an index in `start..end` stays in range after a tick, and a firing brings any index of `start..=end` into range |
| Animation.LoopClosedForm | src/animation.rs:24-29 | a looping clip started at `start` shows `start + n mod (end-start)` after `n` firings |
| Animation.OnceClosedForm | src/animation.rs:24-33 | a non-looping clip at index `i` shows `min(i+n, end-1)` after `n` firings |
| Animation.ClampedReemits | src/animation.rs:26-33 | on its last frame a non-looping clip stays there and sends `Finished` again on each firing |
| Animation.Resnap | src/animation.rs:45-49 | an index outside `start..=end` becomes `start`, one inside is kept, and the result lies in the band |
| Animation.ResnapIdempotent | src/animation.rs:46-49 | applying the correction twice is the same as once |
| Animation.AnimateAll | src/animation.rs:16-37 | every sprite is stepped by its own firing, and the events are exactly `Finished` of the sprites whose non-looping clip reached its end, each entity named once per such sprite; it fails iff some sprite's step fails |
| Animation.FinishOne | src/animation.rs:102-111 | an event for an entity with the components sets its state to the successor, installs that state's clip and shows the clip's first frame; an event for an entity without them changes nothing; no other entity changes |
| Animation.Finish | src/animation.rs:95-114 | draining the queue keeps the set of entities |
| Animation.FinishClosedForm | src/animation.rs:101-112 | an entity named by `k` events ends in its `k`-th successor with that state's clip at its first frame; an entity named by none is unchanged |
| Animation.FinishSucceeds | src/animation.rs:104-108 | when every entity has as many successors as events name it, draining does not fail |
| Animation.FinishConcat | src/animation.rs:101-113 | events are handled in arrival order: draining `a + b` equals draining `a` then `b` |
| Player.ClipOf | src/player.rs:32-62 | every state's clip has a non-empty range and a positive frame period, and it loops exactly for `Idle` and `Running` |
| Player.ClipTableLayout | src/player.rs:34-60 | frame `i` lies in state `s`'s clip exactly when the sheet layout assigns `i` to `s` |
| Player.ClipRangesDisjoint | src/player.rs:34-60 | clips of distinct states share no frame |
| Player.IdleWrapsAfterFifteen | src/player.rs:35-39 | the idle loop started at frame 5 shows frame 19 after 14 firings and is back at 5 after 15 |
| Player.Movement | src/player.rs:137-150 | Right alone requests `260·dt`, Left alone `-260·dt`, both or neither 0; the vertical request is kept, or 0 when there was none |
| Player.MovementScenario | src/player.rs:137-150 | holding Right for 0.1 s requests 26 units; holding both cancels |
| Player.JumpStart | src/player.rs:193-197 | the `Jump` tag changes exactly when Up is held, the last output says grounded and no tag is present, and then it is `Jump(0.0)` |
| Player.StartAttack | src/player.rs:227-232 | the attack starts exactly when X is held, the last output says grounded and no `Swing` is present; it sets `attacking` and `Swing(0.0)` and leaves the attack timer alone |
| Player.SwingConsistencyPreserved | src/player.rs:227-254 | starting and advancing a swing keep `attacking` true exactly while `Swing` is present, and a new swing starts at 0 s, within the swing length |
| Player.SwingSword | src/player.rs:244-254 | the swing ends, clearing `attacking` and removing `Swing`, exactly when `swing + dt >= 0.5`; otherwise the swing grows by `dt` and the status is untouched |
| Player.SwingLasts | src/player.rs:236-254 | across any ticks with non-negative `dt`, the player keeps attacking exactly while the swing's accumulated time is below 0.5 s |
| Player.Rise | src/player.rs:286-300 | the rise is `min(650·dt, 120 - jump)`, between 0 and `650·dt` for `jump <= 120` and `dt >= 0`; the tag is removed exactly when `650·dt + jump >= 120`, leaving `jump + rise == 120`, and otherwise holds `jump + rise < 120`; the horizontal request is kept |
| Player.RiseScenario | src/player.rs:288-295 | two ticks of 0.1 s from the ground rise 65 then 55, and the second removes the tag |
| Player.JumpNeverExceedsMax | src/player.rs:288-295 | over any ticks with non-negative `dt` the accumulated rise is `min(650 · (sum of the dt), 120 - jump)`, so it never exceeds 120; a removed tag means the jump reached 120, and a jump started below 120 keeps its tag exactly while it stays below 120 |
| Player.JumpConsistencyPreserved | src/player.rs:193-197 | starting a jump and then rising or falling keep a present `Jump` tag in `[0, 120)` |
| Player.Fall | src/player.rs:311-317 | the vertical request is `-dt·280/0.95`, never upward for `dt >= 0`, and the horizontal request is kept |
| Player.Vertical | src/player.rs:277-318 | with a `Jump` tag the request is the rise, without one it is the fall and no tag appears; both keep the horizontal request |
| Player.MovementCommutesWithVertical | src/player.rs:73-87 | `movement` and `rise`/`fall`, scheduled without an order, give the same request in either order, independent of the previous request |
| Player.ApplyMovementAnimation | src/player.rs:320-377 | with an output present: attacking gives `Attack`; else grounded gives `Running` iff moving sideways and `Idle` iff not; else rising gives `Jump`, falling gives `Falling`, and no vertical request keeps the state; without an output nothing changes |
| Player.AnimationStateIsMemoryless | src/player.rs:337-375 | the previous state matters only for an airborne, non-attacking player with no vertical request |
| Player.AnimationStateIdempotent | src/player.rs:337-375 | resolving again with the same inputs keeps the result |
| Player.UpdateDirection | src/player.rs:387-393 | a positive request faces `Left`, a negative one `Right`, zero or no output keeps the facing |
| Player.FlipX | src/player.rs:400-405 | the sprite is mirrored exactly when facing `Right` |
| Player.MirroredWhenMovingLeft | src/player.rs:387-405 | after both direction systems the sprite is mirrored iff the request moved left, and unchanged without a horizontal request |
| Player.AttackFinishRebinds | src/player.rs:55-59 | an attack on its last frame sends `Finished`, and the finisher then installs the successor's clip at its first frame |
| Camera.Round | src/camera.rs:52 | the result is within one half of its argument, halfway cases going away from zero |
| Camera.WideViewport | src/camera.rs:52-53 | the viewport is 16:9 and its height is a multiple of 9 within 4.5 pixels of the level height, a halfway height of a non-negative level rounding up |
| Camera.TallViewport | src/camera.rs:86-87 | the viewport is 16:9 and its width is a multiple of 16 within 8 pixels of the level width, a halfway width of a non-negative level rounding up |
| Camera.FollowDelta | src/camera.rs:63-78 | no move iff the player is within the dead zone; the camera's new left edge never passes the level's right bound; when the viewport fits the level it is the re-centring position clamped to the level, otherwise the right clamp wins |
| Camera.FollowRecentres | src/camera.rs:63-69 | away from the level edges the move puts the player at the viewport's centre |
| Camera.FitLevel | src/camera.rs:42-94 | a wide level sets the height-led viewport, puts the camera at `y = -px_hei/2` and sends one horizontal move for this camera exactly when the player is outside the dead zone, equal to the follow step; a tall level sets the width-led viewport, `x = 0` and `y` to the player's offset from the level less half the viewport, clamped into `[0, px_hei - height]`; it fails exactly when those bounds are inverted |
| Camera.FitLevels | src/camera.rs:42-98 | over all level entities: for a wide level one move per level entity when the player is outside the dead zone and none otherwise, every move horizontal, for this camera and equal to the follow step; a tall level's final `y` is clamped against the last level entity; it fails exactly when a tall level's clamp bounds are inverted |
| Camera.CameraFit | src/camera.rs:33-42 | without exactly one player, or without a level entity, nothing changes and nothing is sent; with one, a wide level is framed height-led at `y = -px_hei/2` with one follow move per level entity outside the dead zone, and a tall level width-led at `x = 0` with the clamped `y` and no move, failing exactly when the clamp bounds are inverted; every move is horizontal and targets the queried camera |
| Camera.CurrentLevelFraming | src/camera.rs:43-78 | the 2416 by 288 level is wider than 16:9, is framed 512 by 288 with the camera at `y = -144`, and every move keeps the camera's left edge within `[-1208, 696]` |
| Camera.TallClampFault | src/camera.rs:84-92 | a 24 by 14 level takes the tall branch and the clamp's bounds are inverted |
| Level.PlatformOf | src/states/level.rs:63-83 | the size is non-negative and the cuboid centred at the midpoint with half the size as half-extents spans exactly from the lesser to the greater corner on each axis |
| Level.CornerOrderIrrelevant | src/states/level.rs:66-67 | swapping the two corners gives the same size, centre and half-extents |
| Level.SetupLevel | src/states/level.rs:63-85 | one collider per corner pair, each spanning its corners' box |
| Level.GroundLayout | src/states/level.rs:44-61 | the four ground segments lie in `x ∈ [-1208, 1208]` and `y ∈ [-144, -84]` and are pairwise disjoint in `x` |

## Left out

- ECS plumbing: queries, `Commands` and their deferred insert/remove timing, system ordering and `Changed<>` detection. Each system is modelled alone as a function of explicit inputs. The same-tick composition of all systems is not modelled, except the order independence of `movement` and `rise`/`fall`.
- Bevy's `Timer`: its elapsed time, its period (kept only as `Clip.frameSeconds`) and how `time.delta()` makes it fire. A firing is an input.
- The frame timer reset when a clip is installed, since the timer is not modelled.
- `FromComponentPlugin`, which reinstalls a clip whenever the state changes. Its source `from_component.rs` is not part of this model. A clip is installed only where `animation_finisher` does it.
- The successor function of `PlayerAnimationState`. No successor function for it, and no registration of the finisher for it, appears in the source: its derives do not include an `Iterator`, and the player plugin registers only the state-to-clip plugin. The finisher therefore takes `next` as a parameter, and `Player.AttackFinishRebinds` holds for whatever `next` is supplied.
- Animation.Advance: models `indices.end - 1` with `end == 0` as the overflow-checked panic; the wrap to `usize::MAX` of a build without overflow checks is not modelled.
- `sprite.index += 1` overflowing `usize`: indices are unbounded naturals.
- `f32` rounding throughout. Quantities are exact reals, so `280/0.95` and `16/9` are exact, as is the ratio test.
- `f32::round` is modelled exactly as rounding half away from zero.
- Camera.CameraFit: requires a positive level height. The source divides by it in `f32`, and a zero height would give an infinite or NaN ratio.
- `camera_query.single_mut()` and the unguarded `query.single_mut()` in `movement` panic unless exactly one entity matches. `rise` and `fall` return early when nothing matches and panic only for two or more players. The model takes the one camera and one player as inputs.
- `info!` logging in `swing_sword`.
- The value added to `Swing` on the tick it is removed, since the removed component is never read again.
- Rapier physics: collider shapes and how the kinematic controller resolves motion. Its output is an input record, and `Collider::cuboid` is represented by its half-extents.
- Rendering: sprite bundles, colours, projection origin and parallax.
- `spawn_player`, and the unused `JumpBuffer`, `AirBuffer` and `WeaponSwingAttackComponent`.
- Asset loading (`loading.rs`), which only declares asset collections and a state transition.
