/** Difficulty as a function of elapsed survival time, and the spawn, fire and
    speed parameters derived from it. */
module Difficulty {
  import opened Options

  /** Enemy spawn intervals, in milliseconds. */
  const BaseSpawnRate: int := 2000
  const MinSpawnRate: int := 800
  /** Enemy shoot intervals, in milliseconds. */
  const BaseShootInterval: int := 4000
  const MinShootInterval: int := 1500
  /** Enemy speed, in pixels per tick. */
  const BaseEnemySpeed: real := 0.8

  function Max(a: int, b: int): (m: int) { if a < b then b else a }

  /** The level counts the completed 10-second periods, starting at 1. */
  function DifficultyLevel(elapsed: real): (level: int)
    ensures (level - 1) as real * 10000.0 <= elapsed < level as real * 10000.0
  {
    (elapsed / 10000.0).Floor + 1
  }

  lemma LevelAtLeastOne(elapsed: real)
    requires elapsed >= 0.0
    ensures DifficultyLevel(elapsed) >= 1
  {
  }

  lemma LevelMonotone(t1: real, t2: real)
    requires t1 <= t2
    ensures DifficultyLevel(t1) <= DifficultyLevel(t2)
  {
  }

  lemma LevelExamples()
    ensures DifficultyLevel(0.0) == 1 && DifficultyLevel(9999.0) == 1
    ensures DifficultyLevel(10000.0) == 2 && DifficultyLevel(99999.0) == 10
  {
  }

  /** Time between enemy spawns: 100 ms shorter per level, never below 800 ms. */
  function EnemySpawnInterval(level: int): (ms: int)
    ensures ms >= MinSpawnRate && ms >= BaseSpawnRate - 100 * level
    ensures ms == MinSpawnRate || ms == BaseSpawnRate - 100 * level
  {
    Max(MinSpawnRate, BaseSpawnRate - level * 100)
  }

  lemma SpawnIntervalNonIncreasing(l1: int, l2: int)
    requires l1 <= l2
    ensures EnemySpawnInterval(l2) <= EnemySpawnInterval(l1)
  {
  }

  /** Cooldown between two shots of one enemy: 200 ms shorter per level, never
      below 1500 ms. */
  function EnemyShootInterval(level: int): (ms: int)
    ensures ms >= MinShootInterval && ms >= BaseShootInterval - 200 * level
    ensures ms == MinShootInterval || ms == BaseShootInterval - 200 * level
  {
    Max(MinShootInterval, BaseShootInterval - level * 200)
  }

  lemma ShootIntervalNonIncreasing(l1: int, l2: int)
    requires l1 <= l2
    ensures EnemyShootInterval(l2) <= EnemyShootInterval(l1)
  {
  }

  /** Enemy descent per tick grows by 0.15 pixels per level. */
  function EnemySpeed(level: int): (speed: real)
    ensures level >= 1 ==> speed >= 0.95
  {
    BaseEnemySpeed + level as real * 0.15
  }

  lemma EnemySpeedIncreasing(l1: int, l2: int)
    requires l1 < l2
    ensures EnemySpeed(l1) < EnemySpeed(l2)
  {
  }

  /** Randomised wait before the next power-up: 15 to 25 seconds. */
  function PowerUpSpawnDelay(draw: real): (ms: real)
    ensures 0.0 <= draw < 1.0 ==> 15000.0 <= ms < 25000.0
  {
    15000.0 + draw * 10000.0
  }

  /** As written, the first frame after a restart at page time 120 s adds the
      whole page age, so the new session opens at level 13 instead of 1. */
  lemma RestartEpochAsWritten()
    ensures DifficultyLevel(RunFramesAsWritten((0.0, 0.0), [120016.0]).0) == 13
  {
  }

  /** Corrected: whatever the page time, a new session's first frame is at level 1. */
  lemma FirstFrameAtLevelOne(now: real)
    ensures DifficultyLevel(RunFrames((0.0, None), [now]).0) == 1
  {
  }

  // ---------------------------------------------------------------------
  // Survival time over a run of animation frames

  /** The game loop skips a frame that comes less than 16 ms after the previous one. */
  const FrameInterval: real := 16.0

  /** Frame times that each come at least 16 ms after the one before, the first
      at least 16 ms after `after`. */
  ghost predicate Spaced(after: real, frames: seq<real>)
    decreases |frames|
  {
    frames == [] || (frames[0] - after >= FrameInterval && Spaced(frames[0], frames[1..]))
  }

  /** One frame at `now` as written, on the clock (survival time, previous
      frame time): frames closer than 16 ms to the previous one are skipped,
      and a fresh or restarted session's previous frame time is 0. */
  function FrameStepAsWritten(clock: (real, real), now: real): (r: (real, real))
  {
    if now - clock.1 < FrameInterval then clock
    else (clock.0 + (now - clock.1), now)
  }

  /** The clock after a run of frames, as written. */
  function RunFramesAsWritten(clock: (real, real), frames: seq<real>): (r: (real, real))
    decreases |frames|
  {
    if frames == [] then clock
    else RunFramesAsWritten(FrameStepAsWritten(clock, frames[0]), frames[1..])
  }

  /** As written, spaced frames add up to the time since the previous frame. */
  lemma {:induction false} RunFramesAsWrittenTelescopes(clock: (real, real), frames: seq<real>)
    requires frames != [] && Spaced(clock.1, frames)
    ensures RunFramesAsWritten(clock, frames) == (clock.0 + (frames[|frames| - 1] - clock.1), frames[|frames| - 1])
    decreases |frames|
  {
    if |frames| > 1 {
      RunFramesAsWrittenTelescopes(FrameStepAsWritten(clock, frames[0]), frames[1..]);
    }
  }

  /** As written, from the fresh clock (0, 0) the survival time after spaced
      frames is the page time of the last frame, not the time since the first,
      so the difficulty level follows the page's age. */
  lemma SurvivalTimeAsWritten(frames: seq<real>)
    requires frames != [] && Spaced(0.0, frames)
    ensures RunFramesAsWritten((0.0, 0.0), frames).0 == frames[|frames| - 1]
    ensures DifficultyLevel(RunFramesAsWritten((0.0, 0.0), frames).0) == (frames[|frames| - 1] / 10000.0).Floor + 1
  {
    RunFramesAsWrittenTelescopes((0.0, 0.0), frames);
  }

  /** One frame at `now`, on the clock (survival time, previous frame time if
      any): a session's first frame is never skipped and adds no time. */
  function FrameStep(clock: (real, Option<real>), now: real): (r: (real, Option<real>))
  {
    match clock.1
    case None => (clock.0, Some(now))
    case Some(last) => if now - last < FrameInterval then clock else (clock.0 + (now - last), Some(now))
  }

  /** The clock after a run of frames. */
  function RunFrames(clock: (real, Option<real>), frames: seq<real>): (r: (real, Option<real>))
    decreases |frames|
  {
    if frames == [] then clock
    else RunFrames(FrameStep(clock, frames[0]), frames[1..])
  }

  /** Spaced frames after a previous one add up to the time since it. */
  lemma {:induction false} RunFramesTelescopes(elapsed: real, last: real, frames: seq<real>)
    requires frames != [] && Spaced(last, frames)
    ensures RunFrames((elapsed, Some(last)), frames) == (elapsed + (frames[|frames| - 1] - last), Some(frames[|frames| - 1]))
    decreases |frames|
  {
    if |frames| > 1 {
      RunFramesTelescopes(elapsed + (frames[0] - last), frames[0], frames[1..]);
    }
  }

  /** From a fresh session, the survival time after frames t0 < ... < tn, each
      at least 16 ms after the one before, is tn - t0, whatever the page time. */
  lemma SurvivalTime(frames: seq<real>)
    requires frames != [] && Spaced(frames[0], frames[1..])
    ensures RunFrames((0.0, None), frames) == (frames[|frames| - 1] - frames[0], Some(frames[|frames| - 1]))
  {
    if |frames| > 1 {
      RunFramesTelescopes(0.0, frames[0], frames[1..]);
    }
  }
}
