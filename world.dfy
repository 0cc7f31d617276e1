/** The game session: the world state the game loop updates in place, one
    tick of the loop, the game-over check, restart and start. */
module Game {
  import opened Options
  import opened Entities
  import opened Pools
  import opened Difficulty
  import opened Movement
  import opened Collisions

  /** The player fires at most once per 200 ms. */
  const FireCooldown: real := 200.0
  /** Shield and power ammo last 7 seconds after a pickup. */
  const BuffDuration: real := 7000.0
  const FullHealth: int := 100
  const StartPosition: real := 50.0

  /** The random draws one tick may consume (each in [0, 1)): the new enemy's
      position, the power-up delay, kind and position, `fire(k)` for the k-th
      moving enemy and `kill(i)` for the i-th bullet's unpowered hit. */
  datatype Draws = Draws(enemyX: real, powerUpDelay: real, powerUpKind: real, powerUpX: real,
                         fire: nat -> real, kill: nat -> real)

  /** The session's state, the pair (started, over) of the game: Idle is
      (false, false), Running is (true, false), Over is (false, true). */
  datatype Phase = Idle | Running | Over

  /** A timed power-up effect: whether it is active, and when its pending
      expiry timer fires, if one is pending. */
  datatype Buff = Buff(active: bool, expiry: Option<real>)

  /** The game loop's timers, in milliseconds: the last shot, the last enemy
      and power-up spawns, the session's survival time, and the time of the
      previous frame (absent before the session's first frame). */
  datatype Clocks = Clocks(lastShot: real, lastEnemySpawn: real, lastPowerUpSpawn: real,
                           gameTime: real, lastFrame: Option<real>)

  const InitialClocks: Clocks := Clocks(0.0, 0.0, 0.0, 0.0, None)
  const NoBuff: Buff := Buff(false, None)

  /** The bullets after the auto-fire check at `now` from `jetX`. */
  function FireStep(bullets: seq<Bullet>, lastShot: real, now: real, jetX: real, powered: bool): (r: seq<Bullet>)
  {
    if now - lastShot > FireCooldown then CappedAppend(bullets, MaxBullets, Bullet(jetX, JetY, powered)) else bullets
  }

  /** The enemies after the spawn check at `now`. */
  function SpawnStep(enemies: seq<Enemy>, lastSpawn: real, now: real, level: int, xDraw: real): (r: seq<Enemy>)
  {
    if now - lastSpawn > EnemySpawnInterval(level) as real
    then CappedAppend(enemies, MaxEnemies, Enemy(SpawnX(xDraw), 0.0, 0.0)) else enemies
  }

  /** The power-ups after the drop check at `now`. */
  function DropStep(powerUps: seq<PowerUp>, lastDrop: real, now: real, delayDraw: real, kindDraw: real,
                    xDraw: real): (r: seq<PowerUp>)
    requires 0.0 <= kindDraw < 1.0
  {
    if now - lastDrop > PowerUpSpawnDelay(delayDraw) && |powerUps| < MaxPowerUps
    then powerUps + [PowerUp(SpawnX(xDraw), 0.0, PowerUpKindOf(kindDraw))] else powerUps
  }

  /** The spawn clocks after the three checks at `now`. */
  function SpawnClocks(c: Clocks, powerUps: seq<PowerUp>, now: real, level: int, delayDraw: real): (r: Clocks)
  {
    c.(lastShot := if now - c.lastShot > FireCooldown then now else c.lastShot,
       lastEnemySpawn := if now - c.lastEnemySpawn > EnemySpawnInterval(level) as real then now else c.lastEnemySpawn,
       lastPowerUpSpawn := if now - c.lastPowerUpSpawn > PowerUpSpawnDelay(delayDraw) && |powerUps| < MaxPowerUps
                           then now else c.lastPowerUpSpawn)
  }

  /** What the enemies and the enemy bullets do to the jet in one frame. */
  datatype Impact = Impact(enemies: seq<Enemy>, enemyBullets: seq<EnemyBullet>, explosions: seq<Explosion>, health: int)

  /** With the shield up the touching enemies and bullets are only removed;
      without it the touching enemies explode and cost 20 health each, then
      the touching bullets cost 10 each. */
  function JetImpact(width: Option<nat>, es: seq<Enemy>, ebs: seq<EnemyBullet>, jetX: real, shieldUp: bool,
                     health: int, now: real): (r: Impact)
    requires health >= 0
  {
    if shieldUp then Impact(DeflectEnemies(width, es, jetX), DeflectShots(width, ebs, jetX), [], health)
    else
      var ram := RamJet(width, es, jetX, health, now);
      var shots := ShotsHitJet(width, ebs, jetX, ram.health);
      Impact(ram.survivors, shots.survivors, ram.explosions, shots.health)
  }

  class World {
    var jet: Jet
    var bullets: seq<Bullet>
    var enemies: seq<Enemy>
    var enemyBullets: seq<EnemyBullet>
    var explosions: seq<Explosion>
    var powerUps: seq<PowerUp>
    var score: int
    var health: int
    var highScore: int
    var phase: Phase
    var shield: Buff
    var ammo: Buff
    var clocks: Clocks

    /** The world invariant: the jet in range and within its speed limit, the
        pools within their caps, health in [0, 100], the score a whole number
        of kills, and survival time never negative. */
    ghost predicate Valid()
      reads this
    {
      ValidJet(jet) &&
      |bullets| <= MaxBullets && |enemies| <= MaxEnemies &&
      |enemyBullets| <= MaxEnemyBullets && |powerUps| <= MaxPowerUps &&
      0 <= health <= FullHealth &&
      0 <= score && score % ScorePerKill == 0 && 0 <= highScore &&
      0.0 <= clocks.gameTime
    }

    /** The state before the first start. */
    constructor ()
      ensures Valid() && phase == Idle
      ensures jet == Jet(StartPosition, 0.0)
      ensures bullets == [] && enemies == [] && enemyBullets == [] && explosions == [] && powerUps == []
      ensures score == 0 && health == FullHealth && highScore == 0
      ensures shield == NoBuff && ammo == NoBuff && clocks == InitialClocks
    {
      jet := Jet(StartPosition, 0.0);
      bullets, enemies, enemyBullets, explosions, powerUps := [], [], [], [], [];
      score, health, highScore := 0, FullHealth, 0;
      phase := Idle;
      shield, ammo := NoBuff, NoBuff;
      clocks := InitialClocks;
    }

    /** Jet motion for one tick under the held keys. */
    method MoveJet(left: bool, right: bool)
      requires Valid()
      modifies this`jet
      ensures Valid()
      ensures jet == JetStep(old(jet), left, right)
    {
      jet := JetStep(jet, left, right);
    }

    /** Auto-fire: once the cooldown has passed, spawn a bullet at `jetX` (powered
        while power ammo is active) if the pool has room, and restart the cooldown
        either way. */
    method AutoFire(currentTime: real, jetX: real)
      requires Valid()
      modifies this`bullets, this`clocks
      ensures Valid()
      ensures bullets == FireStep(old(bullets), old(clocks.lastShot), currentTime, jetX, ammo.active)
      ensures clocks == old(clocks).(lastShot := if currentTime - old(clocks.lastShot) > FireCooldown
                                                 then currentTime else old(clocks.lastShot))
    {
      if currentTime - clocks.lastShot > FireCooldown {
        bullets := CappedAppend(bullets, MaxBullets, Bullet(jetX, JetY, ammo.active));
        clocks := clocks.(lastShot := currentTime);
      }
    }

    /** Once the level's spawn interval has passed, spawn an enemy at the top if
        the pool has room, and restart the interval either way. */
    method SpawnEnemy(currentTime: real, level: int, xDraw: real)
      requires Valid()
      modifies this`enemies, this`clocks
      ensures Valid()
      ensures enemies == SpawnStep(old(enemies), old(clocks.lastEnemySpawn), currentTime, level, xDraw)
      ensures clocks == old(clocks).(lastEnemySpawn := if currentTime - old(clocks.lastEnemySpawn) > EnemySpawnInterval(level) as real
                                                      then currentTime else old(clocks.lastEnemySpawn))
    {
      var spawnRate := EnemySpawnInterval(level);
      if currentTime - clocks.lastEnemySpawn > spawnRate as real {
        enemies := CappedAppend(enemies, MaxEnemies, Enemy(SpawnX(xDraw), 0.0, 0.0));
        clocks := clocks.(lastEnemySpawn := currentTime);
      }
    }

    /** Once a randomised 15-25 s delay has passed and fewer than two power-ups
        are live, spawn one of a random kind at the top. */
    method SpawnPowerUp(currentTime: real, delayDraw: real, kindDraw: real, xDraw: real)
      requires Valid()
      requires 0.0 <= kindDraw < 1.0
      modifies this`powerUps, this`clocks
      ensures Valid()
      ensures powerUps == DropStep(old(powerUps), old(clocks.lastPowerUpSpawn), currentTime, delayDraw, kindDraw, xDraw)
      ensures clocks == old(clocks).(lastPowerUpSpawn :=
                if currentTime - old(clocks.lastPowerUpSpawn) > PowerUpSpawnDelay(delayDraw) && |old(powerUps)| < MaxPowerUps
                then currentTime else old(clocks.lastPowerUpSpawn))
    {
      if currentTime - clocks.lastPowerUpSpawn > PowerUpSpawnDelay(delayDraw) && |powerUps| < MaxPowerUps {
        powerUps := powerUps + [PowerUp(SpawnX(xDraw), 0.0, PowerUpKindOf(kindDraw))];
        clocks := clocks.(lastPowerUpSpawn := currentTime);
      }
    }

    /** Prune and move the player's bullets and the falling power-ups. */
    method MovePickups()
      requires Valid()
      modifies this`bullets, this`powerUps
      ensures Valid()
      ensures bullets == MoveBullets(old(bullets))
      ensures powerUps == MovePowerUps(old(powerUps))
    {
      bullets := MoveBullets(bullets);
      powerUps := MovePowerUps(powerUps);
    }

    /** Prune and move the enemies, which may fire as they move, then the
        enemy bullets including the ones just fired. */
    method MoveEnemies(currentTime: real, level: int, fire: nat -> real)
      requires Valid()
      modifies this`enemies, this`enemyBullets
      ensures Valid()
      ensures var moved := AdvanceEnemies(old(enemies), old(enemyBullets), currentTime,
                                          EnemySpeed(level), EnemyShootInterval(level), fire);
              enemies == moved.0 && enemyBullets == MoveEnemyBullets(moved.1)
    {
      var moved := AdvanceEnemies(enemies, enemyBullets, currentTime, EnemySpeed(level), EnemyShootInterval(level), fire);
      var newShots := MoveEnemyBullets(moved.1);
      assert |moved.0| <= MaxEnemies && |newShots| <= MaxEnemyBullets;
      enemies, enemyBullets := moved.0, newShots;
    }

    /** Player bullets against enemies: consumed bullets and destroyed enemies
        leave their pools, each destroyed enemy leaves an explosion and scores 100. */
    method ShootEnemies(width: Option<nat>, kill: nat -> real, now: real)
      requires Valid()
      modifies this`bullets, this`enemies, this`explosions, this`score
      ensures Valid()
      ensures var hits := ScanBullets(width, old(bullets), old(enemies), kill, now, |old(bullets)|);
              bullets == Survivors(old(bullets), hits.removedBullets) &&
              enemies == Survivors(old(enemies), hits.removedEnemies) &&
              explosions == old(explosions) + hits.explosions &&
              score == old(score) + hits.scoreIncrease
      ensures score - old(score) == ScorePerKill * (|explosions| - |old(explosions)|) >= 0
    {
      var removedBullets, removedEnemies, newExplosions, scoreIncrease := ResolveBulletHits(width, bullets, enemies, kill, now);
      var liveBullets := Survivors(bullets, removedBullets);
      var liveEnemies := Survivors(enemies, removedEnemies);
      var newScore := score + scoreIncrease;
      assert |liveBullets| <= |bullets| && |liveEnemies| <= |enemies|;
      assert newScore % ScorePerKill == 0 && newScore >= score;
      bullets, enemies := liveBullets, liveEnemies;
      explosions := explosions + newExplosions;
      score := newScore;
    }

    /** Power-ups against the jet at `jetX`: each one touched is consumed; a
        heart restores full health, a shield or ammo pickup (re)arms that
        effect for 7 seconds. */
    method CollectPowerUps(width: Option<nat>, jetX: real, now: real)
      requires Valid()
      modifies this`powerUps, this`health, this`shield, this`ammo
      ensures Valid()
      ensures var pick := PickUp(width, old(powerUps), jetX);
              powerUps == pick.remaining &&
              health == (if pick.heart then FullHealth else old(health)) &&
              shield == (if pick.shield then Buff(true, Some(now + BuffDuration)) else old(shield)) &&
              ammo == (if pick.ammo then Buff(true, Some(now + BuffDuration)) else old(ammo))
    {
      var pick := PickUp(width, powerUps, jetX);
      powerUps := pick.remaining;
      if pick.heart {
        health := FullHealth;
      }
      if pick.shield {
        shield := Buff(true, Some(now + BuffDuration));
      }
      if pick.ammo {
        ammo := Buff(true, Some(now + BuffDuration));
      }
    }

    /** Enemies and enemy bullets against the jet at `jetX`. Without the
        shield each rammer explodes and costs 20 health and each shot costs 10;
        with the shield they are only removed. */
    method HitJet(width: Option<nat>, jetX: real, shieldUp: bool, now: real)
      requires Valid()
      modifies this`enemies, this`enemyBullets, this`explosions, this`health
      ensures Valid()
      ensures var impact := JetImpact(width, old(enemies), old(enemyBullets), jetX, shieldUp, old(health), now);
              enemies == impact.enemies && enemyBullets == impact.enemyBullets && health == impact.health &&
              explosions == old(explosions) + impact.explosions
    {
      if !shieldUp {
        var ram := RamJet(width, enemies, jetX, health, now);
        enemies := ram.survivors;
        explosions := explosions + ram.explosions;
        var shots := ShotsHitJet(width, enemyBullets, jetX, ram.health);
        enemyBullets := shots.survivors;
        health := shots.health;
      } else {
        enemyBullets := DeflectShots(width, enemyBullets, jetX);
        enemies := DeflectEnemies(width, enemies, jetX);
      }
    }

    /** Explosions older than 300 ms are removed. */
    method AgeExplosions(now: real)
      requires Valid()
      modifies this`explosions
      ensures Valid()
      ensures explosions == ExpireExplosions(old(explosions), now)
    {
      explosions := ExpireExplosions(explosions, now);
    }

    /** The movement half of a frame: the jet moves, the jet fires from
        `jetX`, enemies and power-ups spawn, and every pool is pruned and moved. */
    method Advance(currentTime: real, level: int, left: bool, right: bool, jetX: real, draws: Draws)
      requires Valid()
      requires 0.0 <= draws.powerUpKind < 1.0
      modifies this`jet, this`bullets, this`enemies, this`enemyBullets, this`powerUps, this`clocks
      ensures Valid()
      ensures jet == JetStep(old(jet), left, right)
      ensures bullets == MoveBullets(FireStep(old(bullets), old(clocks.lastShot), currentTime, jetX, old(ammo.active)))
      ensures var moved := AdvanceEnemies(SpawnStep(old(enemies), old(clocks.lastEnemySpawn), currentTime, level, draws.enemyX),
                                          old(enemyBullets), currentTime, EnemySpeed(level), EnemyShootInterval(level), draws.fire);
              enemies == moved.0 && enemyBullets == MoveEnemyBullets(moved.1)
      ensures powerUps == MovePowerUps(DropStep(old(powerUps), old(clocks.lastPowerUpSpawn), currentTime, draws.powerUpDelay, draws.powerUpKind, draws.powerUpX))
      ensures clocks == SpawnClocks(old(clocks), old(powerUps), currentTime, level, draws.powerUpDelay)
    {
      MoveJet(left, right);
      AutoFire(currentTime, jetX);
      SpawnEnemy(currentTime, level, draws.enemyX);
      ghost var fired, spawned := bullets, enemies;
      assert fired == FireStep(old(bullets), old(clocks.lastShot), currentTime, jetX, old(ammo.active));
      assert spawned == SpawnStep(old(enemies), old(clocks.lastEnemySpawn), currentTime, level, draws.enemyX);
      SpawnPowerUp(currentTime, draws.powerUpDelay, draws.powerUpKind, draws.powerUpX);
      assert powerUps == DropStep(old(powerUps), old(clocks.lastPowerUpSpawn), currentTime, draws.powerUpDelay, draws.powerUpKind, draws.powerUpX);
      assert clocks == SpawnClocks(old(clocks), old(powerUps), currentTime, level, draws.powerUpDelay);
      MovePickups();
      MoveEnemies(currentTime, level, draws.fire);
    }

    /** The collision half of a frame, against the jet at `jetX` with the
        shield state `shieldUp`: bullets against enemies, power-up pickup,
        enemies and enemy bullets against the jet, then old explosions fade. */
    method Resolve(width: Option<nat>, jetX: real, shieldUp: bool, kill: nat -> real, now: real)
      requires Valid()
      modifies this`bullets, this`enemies, this`enemyBullets, this`explosions, this`powerUps,
               this`score, this`health, this`shield, this`ammo
      ensures Valid()
      ensures var hits := ScanBullets(width, old(bullets), old(enemies), kill, now, |old(bullets)|);
              bullets == Survivors(old(bullets), hits.removedBullets) && score == old(score) + hits.scoreIncrease
      ensures var pick := PickUp(width, old(powerUps), jetX);
              powerUps == pick.remaining &&
              shield == (if pick.shield then Buff(true, Some(now + BuffDuration)) else old(shield)) &&
              ammo == (if pick.ammo then Buff(true, Some(now + BuffDuration)) else old(ammo))
      ensures var hits := ScanBullets(width, old(bullets), old(enemies), kill, now, |old(bullets)|);
              var healed := if PickUp(width, old(powerUps), jetX).heart then FullHealth else old(health);
              var impact := JetImpact(width, Survivors(old(enemies), hits.removedEnemies), old(enemyBullets),
                                      jetX, shieldUp, healed, now);
              enemies == impact.enemies && enemyBullets == impact.enemyBullets && health == impact.health &&
              explosions == ExpireExplosions(old(explosions) + hits.explosions + impact.explosions, now)
      ensures score >= old(score)
    {
      ShootEnemies(width, kill, now);
      CollectPowerUps(width, jetX, now);
      HitJet(width, jetX, shieldUp, now);
      AgeExplosions(now);
    }

    /** A frame that passed the gates: the survival time advances, then the
        movement half and the collision half run at the level it reaches, all
        of them reading the jet position and the shield state the frame
        started with. */
    method Frame(currentTime: real, left: bool, right: bool, width: Option<nat>, draws: Draws)
      requires Valid()
      requires 0.0 <= draws.powerUpKind < 1.0
      requires clocks.lastFrame.Some? ==> currentTime - clocks.lastFrame.value >= FrameInterval
      modifies this`jet, this`bullets, this`enemies, this`enemyBullets, this`explosions, this`powerUps,
               this`score, this`health, this`shield, this`ammo, this`clocks
      ensures Valid()
      ensures (clocks.gameTime, clocks.lastFrame) == FrameStep((old(clocks.gameTime), old(clocks.lastFrame)), currentTime)
      ensures clocks.lastFrame == Some(currentTime)
      ensures clocks.gameTime >= old(clocks.gameTime)
      ensures score >= old(score)
    {
      var gameTime := FrameStep((clocks.gameTime, clocks.lastFrame), currentTime).0;
      clocks := clocks.(gameTime := gameTime, lastFrame := Some(currentTime));
      var level := DifficultyLevel(gameTime);
      var jetX, shieldUp := jet.position, shield.active;
      Advance(currentTime, level, left, right, jetX, draws);
      Resolve(width, jetX, shieldUp, draws.kill, currentTime);
    }

    /** One frame of the game loop at time `currentTime` with the held keys,
        the measured container width and the frame's random draws. Nothing
        happens unless the session is running and 16 ms have passed since the
        session's previous frame. */
    method Tick(currentTime: real, left: bool, right: bool, width: Option<nat>, draws: Draws)
      requires Valid()
      requires 0.0 <= draws.powerUpKind < 1.0
      modifies this
      ensures Valid()
      ensures old(phase) != Running ==> unchanged(this)
      ensures old(clocks.lastFrame).Some? && currentTime - old(clocks.lastFrame).value < FrameInterval ==> unchanged(this)
      ensures phase == old(phase) && highScore == old(highScore)
      ensures old(phase) == Running ==>
                (clocks.gameTime, clocks.lastFrame) == FrameStep((old(clocks.gameTime), old(clocks.lastFrame)), currentTime)
      ensures clocks.gameTime >= old(clocks.gameTime)
      ensures DifficultyLevel(clocks.gameTime) >= DifficultyLevel(old(clocks.gameTime))
      ensures score >= old(score)
    {
      if phase != Running {
        return;
      }
      if clocks.lastFrame.Some? && currentTime - clocks.lastFrame.value < FrameInterval {
        return;
      }
      Frame(currentTime, left, right, width, draws);
      LevelMonotone(old(clocks.gameTime), clocks.gameTime);
    }

    /** The game-over check that runs after every state change: once health has
        reached 0 in a session that is not over, the session ends and the high
        score keeps the better of the two scores. */
    method CheckGameOver()
      requires Valid()
      modifies this`phase, this`highScore
      ensures Valid()
      ensures old(health) <= 0 && old(phase) != Over ==> phase == Over && highScore == Max(old(highScore), score)
      ensures !(old(health) <= 0 && old(phase) != Over) ==> phase == old(phase) && highScore == old(highScore)
    {
      if health <= 0 && phase != Over {
        phase := Over;
        if score > highScore {
          highScore := score;
        }
      }
    }

    /** Every entity pool emptied. */
    method ClearPools()
      modifies this`bullets, this`enemies, this`enemyBullets, this`explosions, this`powerUps
      ensures bullets == [] && enemies == [] && enemyBullets == [] && explosions == [] && powerUps == []
    {
      bullets, enemies, enemyBullets, explosions, powerUps := [], [], [], [], [];
    }

    /** Restart: a fresh running session that keeps only the high score. */
    method Restart()
      requires Valid()
      modifies this
      ensures Valid() && phase == Running
      ensures jet == Jet(StartPosition, 0.0)
      ensures bullets == [] && enemies == [] && enemyBullets == [] && explosions == [] && powerUps == []
      ensures score == 0 && health == FullHealth && highScore == old(highScore)
      ensures shield == NoBuff && ammo == NoBuff && clocks == InitialClocks
    {
      ClearPools();
      jet := Jet(StartPosition, 0.0);
      score := 0;
      health := FullHealth;
      phase := Running;
      shield, ammo := NoBuff, NoBuff;
      clocks := InitialClocks;
    }

    /** The start button: the session runs; nothing else is reset. */
    method Start()
      requires Valid()
      modifies this`phase
      ensures Valid() && phase == Running
    {
      phase := Running;
    }

    /** Space or Enter: starts the session unless it is already running. */
    method PressStartKey()
      requires Valid()
      modifies this`phase
      ensures Valid() && phase == Running
    {
      if phase != Running {
        Start();
      }
    }

    /** A pending shield or ammo timer fires once its expiry time is reached. */
    method ExpireBuffs(now: real)
      requires Valid()
      modifies this`shield, this`ammo
      ensures Valid()
      ensures shield == (if old(shield).expiry.Some? && now >= old(shield).expiry.value then NoBuff else old(shield))
      ensures ammo == (if old(ammo).expiry.Some? && now >= old(ammo).expiry.value then NoBuff else old(ammo))
    {
      if shield.expiry.Some? && now >= shield.expiry.value {
        shield := NoBuff;
      }
      if ammo.expiry.Some? && now >= ammo.expiry.value {
        ammo := NoBuff;
      }
    }
  }
}
