# Jet game: a verified model of the simulation core

This project models the game logic of the Jet game's single React component
(`src/App.js`), a vertical shooter. The player's jet moves along the bottom
of a 750-pixel-high playfield and fires automatically. Enemies descend and
shoot back. Power-ups (heart, shield, power ammo) drift down. The model
covers the following:

- **Difficulty** (`difficulty.dfy`): the level from survival time, the enemy
  spawn and shoot intervals, enemy speed, the power-up delay, and how survival
  time grows frame by frame.
- **Collision test** (`geometry.dfy`): boxes are placed by percentage x and
  absolute y, then tested for strict overlap. The test fails closed only when
  the container is not mounted.
- **Entities and pools** (`entities.dfy`, `pools.dfy`):
  - capped spawning (15 bullets, 8 enemies, 10 enemy bullets; power-ups spawn
    only while fewer than 2 are live);
  - the prune-then-move step of every pool;
  - enemy fire with its cooldown and random draw;
  - explosion aging.
- **Jet movement** (`movement.dfy`): acceleration, friction, the speed clamp
  and the walls at 5% and 95%.
- **Collision resolution** (`collisions.dfy`):
  - bullets against enemies, using removal index sets and the `break` after a
    bullet's first target;
  - power-up pickup;
  - enemies and enemy bullets against the jet, with and without the shield.
- **The session** (`world.dfy`): a `World` class whose fields are the
  component's state hooks and refs. `Tick` is one animation frame of the game
  loop. Beside it are the game-over effect, restart, the start button, the
  start key and the firing of the shield and ammo timers.

On the modelling choices:

- **Time.** Time is real milliseconds. Positions and velocities are exact
  reals.
- **Container.** The container is `Option<nat>`: `None` means the container
  element is not mounted, otherwise it holds the width in pixels.
- **Random draws.** Every `Math.random()` the source calls becomes a draw
  passed in. The `Draws` record holds the enemy and power-up positions, the
  power-up delay and kind, `fire(k)` for the k-th moving enemy and `kill(i)`
  for the i-th bullet's unpowered hit.
- **Session phase.** The pair of flags `gameStarted` and `gameOver` is
  `Phase`:
  - Idle is not started and not over;
  - Running is started and not over;
  - Over is over and not started.
  The fourth combination never arises in the source.
- **Timers and clocks.** A shield or ammo effect is a `Buff`: the flag plus
  the time its pending 7-second timer fires. The five timing refs are one
  `Clocks` record.
- **Order of updates.** A frame's updates run one after another in the order
  they appear in the source text (see "Left out" for how this differs from
  React's order). Every update of one frame reads the jet position and the
  shield flag the frame started with: the bullet spawn position, the pickup,
  ram and shot tests, and the shield test. This is because the game loop
  closes over the values of the render that scheduled it. The power-up cap
  also reads the start-of-frame pool, and this is the pool as it stands when
  the spawn runs.
- **Frame clock.** The `World` keeps the previous frame time as an option:
  none at mount and after a restart, so a session's first frame adds no
  survival time. The source stores 0 there instead; that behaviour is
  modelled separately and is the first finding below.

Three behaviours of the code that are easy to get wrong, and that the model
follows:

- **Both arrow keys held.** The code adds −0.8 and then +0.8 to the velocity
  and applies no friction, because friction is applied only when neither key
  is held (src/App.js:377-379).
- **Zero container width.** The collision test returns false only when the
  container is missing (src/App.js:222). With a zero width it still compares
  the boxes, all placed at their negated half-widths.
- **The start key after game over.** The start key is accepted whenever the
  session is not running, so also on the game-over screen. It resets nothing:
  health is still 0, so the game-over check ends the session again.

## Model

| member | source | states |
|---|---|---|
| Difficulty.DifficultyLevel | src/App.js:184-186 | the level is the number of whole 10-second periods elapsed plus one: (level−1)·10000 ≤ elapsed < level·10000 |
| Difficulty.LevelAtLeastOne | src/App.js:184-186 | the level is at least 1 for any non-negative survival time |
| Difficulty.LevelMonotone | src/App.js:184-186 | the level never decreases as survival time grows |
| Difficulty.LevelExamples | src/App.js:184-186 | level 1 at 0 and 9999 ms, level 2 at 10 s, level 10 at 99.999 s |
| Difficulty.EnemySpawnInterval | src/App.js:412-414 | the spawn interval is the larger of 800 ms and (2000 − 100·level) ms: it is at least both and equals one of them |
| Difficulty.SpawnIntervalNonIncreasing | src/App.js:412-414 | a higher level never spawns enemies more slowly |
| Difficulty.EnemyShootInterval | src/App.js:453-455 | the enemy shoot cooldown is the larger of 1500 ms and (4000 − 200·level) ms: it is at least both and equals one of them |
| Difficulty.ShootIntervalNonIncreasing | src/App.js:453-455 | a higher level never lengthens the shoot cooldown |
| Difficulty.EnemySpeed | src/App.js:451-452 | enemies move at least 0.95 px per frame from level 1 on |
| Difficulty.EnemySpeedIncreasing | src/App.js:451-452 | enemy speed strictly increases with the level |
| Difficulty.PowerUpSpawnDelay | src/App.js:430 | for a draw in [0, 1) the power-up delay lies in [15000, 25000) ms |
| Difficulty.RunFramesAsWrittenTelescopes | src/App.js:354-362 | as written, over frames each at least 16 ms after the one before, the survival time grows by exactly the time from the stored previous frame time to the last frame |
| Difficulty.SurvivalTimeAsWritten | src/App.js:354-363 | as written, from a fresh session (survival time 0, `lastFrameTime` 0, line 177 or 539) the survival time after frames t0 < … < tn spaced by at least 16 ms is tn, the page time, so the level is ⌊tn/10000⌋ + 1 |
| Difficulty.RestartEpochAsWritten | src/App.js:354-362 | as written, a restart 120 s after page load makes the session's first frame land at level 13 |
| Difficulty.RunFramesTelescopes | src/App.js:354-362 | corrected: after a previous frame, frames each at least 16 ms after the one before add up to the time from that previous frame to the last one |
| Difficulty.SurvivalTime | src/App.js:354-362 | corrected: from a fresh session the survival time after frames t0 < … < tn spaced by at least 16 ms is tn − t0, whatever the page time |
| Difficulty.FirstFrameAtLevelOne | src/App.js:359-363 | corrected: a session's first frame is at level 1, whenever it happens |
| Geometry.CheckCollision | src/App.js:221-234 | no collision is reported while the container is not mounted |
| Geometry.CheckCollisionSymmetric | src/App.js:221-234 | the collision test is symmetric in its two boxes |
| Geometry.CheckCollisionByCentres | src/App.js:225-233 | two boxes collide exactly when their centres are closer than half their summed widths horizontally, and their vertical extents overlap strictly |
| Geometry.OverlapIffCommonPoint | src/App.js:228-233 | for boxes of positive size, the four-inequality overlap test holds exactly when some point lies inside both open boxes |
| Geometry.CheckCollisionIffCommonPoint | src/App.js:221-234 | for a mounted container and positive sizes, a collision is reported exactly when the placed boxes share a point |
| Movement.Steer | src/App.js:370-379 | the left key alone lowers the velocity by 0.8, the right key alone raises it by 0.8, both keys keep it, and no key scales it by 0.85 |
| Movement.ClampSpeed | src/App.js:382 | the speed is clamped to [−2.5, 2.5]; a velocity already in range is kept, and one beyond a bound becomes that bound |
| Movement.JetStep | src/App.js:366-395 | after a step the jet is between the walls at 5 and 95 and within the speed limit; it has either stopped or moved by its new velocity |
| Movement.WallStopsJet | src/App.js:384-392 | a step that would cross a wall leaves the jet at that wall with velocity 0: at 5 when it would pass the left wall, at 95 when it would pass the right one |
| Movement.FreeStep | src/App.js:382-394 | with any keys held, a step that stays between the walls moves the jet by the steered, clamped velocity and keeps that velocity |
| Movement.CoastingAppliesFriction | src/App.js:378-384 | with no key held and no wall reached, the velocity is scaled by 0.85 and the jet moves by it |
| Movement.BothKeysKeepVelocity | src/App.js:371-380 | with both keys held, the velocity is kept and no friction applies |
| Movement.HeldKeyPushes | src/App.js:371-394 | holding one key, away from the walls, changes the velocity by 0.8 in that key's direction, up to the speed limit and with no friction, and moves the jet by the new velocity |
| Movement.LeftStep | src/App.js:366-395 | holding left either reaches the rest state at the left wall or lowers a distance-plus-speed measure by at least 2.5 |
| Movement.RestsAtLeftWall | src/App.js:366-395 | holding left keeps a jet resting at the left wall where it is |
| Movement.HoldLeftReachesWall | src/App.js:366-395 | holding left for enough frames, bounded by the jet's distance and speed, brings it to rest at the left wall |
| Movement.HoldLeftWithin57Ticks | src/App.js:366-395 | from any valid state, holding left for 57 frames or more leaves the jet at rest at the left wall |
| Pools.CappedAppend | src/App.js:399-407 | a spawn (here a bullet; enemies and enemy bullets at lines 417-425 and 464-471 alike) appends the entity when the pool is under its cap and leaves the pool as it is otherwise; the old pool is always a prefix |
| Pools.CappedAppendWithinCap | src/App.js:400 | a pool within its cap stays within it after a spawn |
| Pools.Filter | src/App.js:480-489 | a filter keeps exactly the entities passing the test, as a subsequence, and never grows the pool |
| Pools.FilterCounts | src/App.js:480-489 | a filter keeps every passing entity as many times as it occurs and drops every other one entirely |
| Pools.Survivors | src/App.js:280-283 | filtering by removed indexes keeps every unremoved entity, as a subsequence, and shrinks the pool by exactly the number of removed indexes in range |
| Pools.SurvivorsPlaces | src/App.js:280-283 | the unremoved entity at index i is the survivor at index i minus the number of removed indexes below i, so order and repeats are kept |
| Pools.MoveBullets | src/App.js:445-448 | bullet motion never grows the pool, and every bullet left is above y = −10 |
| Pools.MoveBulletsKeeps | src/App.js:445-448 | every bullet still on screen (y > 0) reappears 10 px higher |
| Pools.MoveBulletsOrigin | src/App.js:445-448 | every moved bullet came from a bullet 10 px lower that was on screen |
| Pools.MoveBulletsIsShiftedFilter | src/App.js:445-448 | bullet motion is the filter of the bullets with y > 0 followed by a 10 px move up of each, so order and repeats are kept |
| Pools.MovePowerUpsIsShiftedFilter | src/App.js:480-483 | power-up motion is the filter of the power-ups above the bottom edge followed by a 2 px move down of each |
| Pools.MoveEnemyBulletsIsShiftedFilter | src/App.js:485-489 | enemy-bullet motion is the filter of the shots above the bottom edge followed by a 4 px move down of each |
| Pools.BulletPruneBoundary | src/App.js:446 | a bullet at y = 10 moves to y = 0 and survives; a bullet at y = 0 is pruned |
| Pools.MovePowerUps | src/App.js:480-483 | power-up motion never grows the pool, and every power-up left is above y = 752 |
| Pools.MovePowerUpsKeeps | src/App.js:480-483 | every power-up above the bottom edge reappears 2 px lower |
| Pools.MovePowerUpsOrigin | src/App.js:480-483 | every moved power-up came from one 2 px higher that was above the bottom edge |
| Pools.MoveEnemyBullets | src/App.js:485-489 | enemy-bullet motion never grows the pool, and every shot left is above y = 754 |
| Pools.MoveEnemyBulletsKeeps | src/App.js:485-489 | every enemy bullet above the bottom edge reappears 4 px lower |
| Pools.MoveEnemyBulletsOrigin | src/App.js:485-489 | every moved enemy bullet came from one 4 px higher that was above the bottom edge |
| Pools.FireAndMove | src/App.js:459-477 | one moved enemy per enemy; shots are only appended, at most one per enemy, and the enemy-bullet cap holds |
| Pools.FireAndMoveMoves | src/App.js:461-474 | the i-th enemy keeps its x and moves down by the level's speed, and its shot time becomes now exactly when its cooldown has passed and its draw exceeds 0.98, and stays otherwise |
| Pools.FireAndMoveShots | src/App.js:463-472 | the enemy-bullet pool afterwards is the old pool with the firing enemies' shots, each at (x, y + 50) of its enemy before the move, spawned in enemy order under the cap of 10 |
| Pools.AppendShotsKeepsFirst | src/App.js:464-471 | spawning shots one by one under the cap keeps exactly the first ones that fit, after the old pool |
| Pools.AdvanceEnemies | src/App.js:458-477 | as many enemies come out as were above the bottom edge; the enemy-bullet pool is the old pool with the shots of the firing enemies above the bottom edge, in order, under the cap; every enemy that comes out was above the bottom edge before its move |
| Pools.AdvanceEnemiesMoves | src/App.js:459-474 | the i-th enemy above the bottom edge comes out as the i-th enemy: same x, moved down by the speed, shot time now exactly when it fires |
| Pools.AdvanceEnemiesKeeps | src/App.js:459-462 | every enemy above the bottom edge comes out moved down by the speed |
| Pools.AdvanceEnemiesOrigin | src/App.js:459-462 | every enemy that comes out is an enemy above the bottom edge moved down by the speed |
| Pools.ExpireExplosions | src/App.js:495 | corrected: an explosion stamped with the frame time survives exactly while it is younger than 300 ms, and order is kept |
| Pools.ExplosionLifetimeExact | src/App.js:495 | corrected: an explosion is kept at a frame exactly when the frame comes less than 300 ms after its stamp |
| Pools.StaleExplosionsExpire | src/App.js:495 | corrected: explosions all stamped at least 300 ms before the frame are all removed |
| Pools.WallClockStampsNeverExpire | src/App.js:494-495 | as written, explosions stamped (lines 262 and 313) on the wall clock after page load are never removed while the frame time is below the page's wall-clock load time |
| Pools.ExplosionOutlivesLifetimeAsWritten | src/App.js:494-495 | as written, an explosion made one second after a page load in 2023 survives a minute later; stamped with the frame time it is gone |
| Pools.SpawnX | src/App.js:421 | a spawn position drawn from [0, 1) lies in [5, 95) |
| Pools.PowerUpKindOf | src/App.js:432-433 | the kind is a heart, shield or ammo pickup for a draw in the first, second or last third of [0, 1) |
| Collisions.Damage | src/App.js:317 | damage floors health at 0: the result is 0 or health minus the damage, and never rises above health |
| Collisions.DamageAdds | src/App.js:317 | two floored damages in a row equal one floored damage of their sum |
| Collisions.FirstTarget | src/App.js:249-270 | a bullet's target is the first unmarked enemy it overlaps; no earlier unmarked enemy overlaps it, and there is no target when no unmarked enemy overlaps it |
| Collisions.ScanBulletsCounts | src/App.js:246-271 | removed indexes are in range; the score rises by 100 per destroyed enemy; one explosion per destroyed enemy; one hit per removed bullet; no more enemies destroyed than bullets consumed |
| Collisions.ScanBulletsExplosions | src/App.js:259-266 | every new explosion is stamped now, at the position of a destroyed enemy |
| Collisions.ScanBulletsHitsGenuine | src/App.js:249-269 | every recorded hit names a scanned bullet and an enemy that overlap; a powered bullet's hit always destroys; the bullet of every hit is removed, and so is the enemy of every destroying hit |
| Collisions.ScanBulletsOneHitPerBullet | src/App.js:256-268 | each bullet hits at most one enemy per frame |
| Collisions.ScanBulletsDestroyedOnce | src/App.js:250-260 | no enemy is destroyed twice in one frame |
| Collisions.ScanBulletsRemovalsExplained | src/App.js:257-260 | every removed bullet is the bullet of a recorded hit, and every removed enemy the enemy of a destroying hit |
| Collisions.BulletRemovedIffItHit | src/App.js:249-269 | a bullet is consumed exactly when some enemy not destroyed by earlier bullets overlaps it |
| Collisions.ResolveBulletHits | src/App.js:239-284 | the nested loop with `continue` and `break` computes exactly the reference scan over all bullets: removal sets, explosions and score increase, with the counts above |
| Collisions.PickUp | src/App.js:287-305 | the power-ups left are exactly those not touching the jet, in order; a heart, shield or ammo effect is triggered exactly when a touching power-up of that kind exists |
| Collisions.RamJet | src/App.js:308-322 | without the shield, the enemies left are exactly those not touching the jet; there is one explosion per removed enemy, each at the position of a ramming enemy and stamped now; health drops by 20 per explosion, floored at 0 |
| Collisions.RamJetExplosions | src/App.js:309-316 | the explosions are exactly one per ramming enemy, at its position and stamped now, in the enemies' order |
| Collisions.ShotsHitJet | src/App.js:324-332 | without the shield, the enemy bullets left are exactly those not touching the jet; each consumed one costs 10 health, floored at 0 |
| Collisions.DeflectEnemies | src/App.js:340-344 | with the shield, the enemies left are exactly those not touching the jet, in order |
| Collisions.DeflectShots | src/App.js:334-338 | with the shield, the enemy bullets left are exactly those not touching the jet, in order |
| Collisions.ShieldRemovesRammers | src/App.js:308-344 | the shield removes exactly the enemies that would otherwise ram the jet |
| Collisions.ShieldRemovesShots | src/App.js:324-338 | the shield removes exactly the enemy bullets that would otherwise hit the jet |
| Collisions.PickUpIsFilter | src/App.js:287-305 | the power-ups left are the filter of those not touching the jet, so order and repeats are kept |
| Collisions.DeflectEnemiesIsFilter | src/App.js:340-344 | with the shield, the enemies left are the filter of those not touching the jet |
| Collisions.DeflectShotsIsFilter | src/App.js:334-338 | with the shield, the enemy bullets left are the filter of those not touching the jet |
| Collisions.RamJetIsFilter | src/App.js:308-322 | without the shield, the enemies left are the filter of those not touching the jet |
| Collisions.ShotsHitJetIsFilter | src/App.js:324-332 | without the shield, the enemy bullets left are the filter of those not touching the jet |
| Game.World.constructor | src/App.js:153-177 | the initial state: jet at 50 at rest, empty pools, no score, full health, no high score, not started, no effects, spawn clocks and survival time at 0 and no previous frame time |
| Game.World.MoveJet | src/App.js:366-395 | the jet takes one movement step under the held keys, and the world invariant holds |
| Game.World.AutoFire | src/App.js:398-409 | after 200 ms, a bullet is spawned at the frame's jet position, powered while power ammo is active, within the cap of 15, and the cooldown restarts; otherwise nothing changes |
| Game.World.SpawnEnemy | src/App.js:411-427 | after the level's spawn interval, an enemy is spawned at the top within the cap of 8 and the interval restarts; otherwise nothing changes |
| Game.World.SpawnPowerUp | src/App.js:429-442 | after the drawn delay and while fewer than two are live, a power-up of the drawn kind is spawned at the top and the delay restarts; otherwise nothing changes |
| Game.World.MovePickups | src/App.js:444-483 | bullets and power-ups are each pruned and moved as `Pools.MoveBullets` and `Pools.MovePowerUps` state, and the caps still hold |
| Game.World.MoveEnemies | src/App.js:450-489 | enemies are pruned, moved and fire as `Pools.AdvanceEnemies` states, then the enemy bullets, new shots included, are pruned and moved; the caps still hold |
| Game.World.ShootEnemies | src/App.js:239-284 | consumed bullets and destroyed enemies are removed by index, explosions are appended, and the score rises by 100 per new explosion |
| Game.World.CollectPowerUps | src/App.js:287-305 | touched power-ups are consumed; a heart restores health to 100; a shield or ammo pickup activates that effect and (re)arms its 7-second timer |
| Game.World.HitJet | src/App.js:307-345 | without the shield, rammers explode and cost health, then enemy bullets cost health; with the shield, touching enemies and enemy bullets are only removed |
| Game.World.AgeExplosions | src/App.js:495 | explosions are aged as `Pools.ExpireExplosions` states |
| Game.World.Advance | src/App.js:365-489 | the movement half of a frame: the jet takes its step; the bullets are the auto-fire result, then moved; the enemies are the spawn result, then advanced with their fire, and the enemy bullets that result moved; the power-ups are the drop result, then moved; each spawn clock restarts exactly when its spawn check passed; survival time and the previous frame time are left alone |
| Game.World.Resolve | src/App.js:237-346 | the collision half of a frame: bullets and enemies lose the indexes the bullet scan removes and the score rises by its increase; touched power-ups are consumed and trigger their effects; then the jet, at the health the pickup left, is rammed and shot (or shielded) by the enemies that survived the scan; finally the explosions, old and new, are aged (line 495) |
| Game.World.Frame | src/App.js:359-495 | a frame that passed the gates stores the new survival time and the frame time, runs both halves, keeps the invariant and never lowers the score |
| Game.World.Tick | src/App.js:348-497 | nothing changes unless the session is running and 16 ms have passed since the previous frame; otherwise survival time and the previous frame time advance as `Difficulty.FrameStep` says; a frame keeps the invariant, the phase and the high score, and never lowers the survival time, the level or the score |
| Game.World.CheckGameOver | src/App.js:509-518 | once health is 0 in a session that is not over, the session ends and the high score becomes the larger of the two scores; otherwise nothing changes |
| Game.World.ClearPools | src/App.js:522-526 | every entity pool is emptied |
| Game.World.Restart | src/App.js:520-542 | a fresh running session: jet at 50 at rest, empty pools, score 0, health 100, no effects, spawn clocks and survival time at 0 and no previous frame time; the high score is kept |
| Game.World.Start | src/App.js:544-547 | the start button makes the session run |
| Game.World.PressStartKey | src/App.js:192-196 | Space or Enter makes the session run |
| Game.World.ExpireBuffs | src/App.js:293-299 | a shield or ammo effect whose timer time has come is switched off and its timer cleared; an effect with no timer due is left alone |

## Left out

- Rendering: the JSX tree, the child components, CSS and the mobile-control
  buttons. This is presentation only. The buttons only set the same key flags
  that `Tick`'s `left` and `right` parameters stand for.
- Key events: the keyboard listeners are reduced to those parameters, and to
  `PressStartKey` for Space and Enter.
- Scheduling: `requestAnimationFrame` scheduling, its cancellation, and the
  game-loop effect's re-subscription when its dependencies change. These are
  host scheduling. `Tick` is one frame callback, with `currentTime` as a
  parameter.
- React's update order: the model applies the updates of one frame one
  after another in source-text order, so each phase sees the results of the
  previous one. React runs the queued updaters at the next render, hook by
  hook in declaration order (src/App.js:153-165). And an update queued from
  inside an updater joins its hook's queue behind the updates the frame
  queued directly: the enemy update of the bullet scan (line 245), the enemy
  shots (line 464), the explosion and score updates (lines 274, 277 and 312)
  and the health updates (lines 291, 317 and 327). Consequences:
  - a heart picked up while an enemy bullet hits the jet at health 50 ends
    at 50 − 10 = 40 and then 100 in the source, because the enemy-bullet
    hook runs before the power-up hook; the model heals first and ends at 90;
  - an enemy that is both shot and ramming the jet in one frame is removed
    by the ram first in the source, costing 20 health and scoring nothing;
    the model lets the bullet destroy it, scoring 100 with no damage.
  - the bullet filter at line 283 runs inside the bullet update, while the
    enemy update it queued at line 245 is still waiting in the enemies'
    queue, so the filter sees an empty `toRemoveBullets` and a bullet that
    hits stays in play; the model removes it.
- Entity ids: ids from `Date.now()` are not modelled. They serve only as
  rendering keys, and, for explosions, as the aging stamp. The model stamps
  an explosion with the frame time in `born`; see the findings.
- IEEE-754 doubles: positions, velocities and times are exact reals. The
  rounding of `0.85` and `0.15` products is not modelled.
- Timers: `setTimeout` and `clearTimeout` for the shield and ammo effects
  become expiry times and the `ExpireBuffs` event. The model does not capture
  that the host may fire a timer late.
- The guard `toRemoveBullets.has(bIndex)` at src/App.js:247 is omitted. Each
  bullet index is visited once, and only its own visit adds it to the set, so
  the guard never fires.
- Collisions.RamJet, Collisions.ShotsHitJet, Collisions.ShieldRemovesRammers
  and Collisions.ShieldRemovesShots require health ≥ 0. The source accepts
  any number, but the world invariant keeps health in [0, 100].
- Difficulty.EnemySpeed states only a lower bound and strict growth
  (`Difficulty.EnemySpeedIncreasing`), not the formula 0.8 + 0.15·level
  itself.
- Game.World.Tick and Game.World.Frame state the invariant, the clocks and
  what they leave alone, not the whole new state of the frame. That new state
  is stated in full by Game.World.Advance and Game.World.Resolve, which
  they call in order.
- Game.World.constructor and Game.World.Restart use the corrected frame
  clock: no previous frame time, where the source stores 0 (lines 177 and
  539). The as-written clock is `Difficulty.RunFramesAsWritten`.

## Findings

| source | as written | input that shows it | evidently intended | confidence | as-written member | corrected member |
|---|---|---|---|---|---|---|
| src/App.js:354-362 | `lastFrameTime` starts at 0 and a restart resets it to 0 (line 539), so a session's first frame adds the whole time since page load to the survival time | a restart at frame time 120016 ms makes the first frame's survival time 120016 ms, which is level 13 | a session starts at level 1 and its survival time counts only its own frames | high (not executed) | Difficulty.RestartEpochAsWritten | Difficulty.SurvivalTime |
| src/App.js:494-495 | explosions are stamped with `Date.now()` (lines 262 and 313) (wall-clock ms since 1970) but aged against the animation-frame time (ms since page load), so `currentTime - exp.id` is always far below 300 and no explosion is ever removed | an explosion made at wall-clock time 1700000001000.5 is still present at frame time 61000 | an explosion disappears 300 ms after it appears | high (not executed) | Pools.ExplosionOutlivesLifetimeAsWritten | Pools.StaleExplosionsExpire |
