/** The bounded entity pools: capped spawns, pruning of entities that left the
    playfield, per-tick motion and explosion aging. */
module Pools {
  import opened Entities
  import opened Geometry

  const MaxBullets: nat := 15
  const MaxEnemies: nat := 8
  const MaxEnemyBullets: nat := 10
  const MaxPowerUps: nat := 2

  /** Per-tick motion, in pixels. */
  const BulletStep: real := 10.0
  const PowerUpStep: real := 2.0
  const EnemyBulletStep: real := 4.0

  /** How long an explosion stays on screen, in milliseconds. */
  const ExplosionLifetime: real := 300.0

  /** The chance threshold an enemy's fire draw has to exceed. */
  const ShootChance: real := 0.98

  /** `sub` is `s` with some elements left out, in their original order. */
  predicate IsSubsequence<T(==)>(sub: seq<T>, s: seq<T>)
    decreases |s|
  {
    if sub == [] then true
    else if s == [] then false
    else (sub[0] == s[0] && IsSubsequence(sub[1..], s[1..])) || IsSubsequence(sub, s[1..])
  }

  /** Spawn into a pool: a pool holding `cap` or more entities stays as it is,
      otherwise the new entity is appended. */
  function CappedAppend<T>(pool: seq<T>, cap: nat, item: T): (r: seq<T>)
    ensures pool <= r && |r| <= |pool| + 1
    ensures |r| <= cap || r == pool
    ensures |pool| < cap ==> r == pool + [item]
  {
    if |pool| >= cap then pool else pool + [item]
  }

  /** A pool within its cap stays within its cap after a spawn. */
  lemma CappedAppendWithinCap<T>(pool: seq<T>, cap: nat, item: T)
    requires |pool| <= cap
    ensures |CappedAppend(pool, cap, item)| <= cap
  {
  }

  /** The entities that satisfy `keep`, in order. */
  function Filter<T(==,!new)>(s: seq<T>, keep: T -> bool): (r: seq<T>)
    ensures |r| <= |s|
    ensures IsSubsequence(r, s)
    ensures forall x :: x in r <==> x in s && keep(x)
    decreases |s|
  {
    if s == [] then []
    else if keep(s[0]) then [s[0]] + Filter(s[1..], keep)
    else Filter(s[1..], keep)
  }

  /** Filtering keeps every kept entity as often as it occurs, and drops the rest. */
  lemma {:induction false} FilterCounts<T(!new)>(s: seq<T>, keep: T -> bool, x: T)
    ensures multiset(Filter(s, keep))[x] == if keep(x) then multiset(s)[x] else 0
    decreases |s|
  {
    if s != [] {
      FilterCounts(s[1..], keep, x);
      assert s == [s[0]] + s[1..];
    }
  }

  /** `f` applied to every entity, in order. */
  function Map<T, U>(s: seq<T>, f: T -> U): (r: seq<U>)
    ensures |r| == |s| && forall i :: 0 <= i < |s| ==> r[i] == f(s[i])
    decreases |s|
  {
    if s == [] then []
    else
      assert forall i :: 1 <= i < |s| ==> s[i] == s[1..][i - 1];
      [f(s[0])] + Map(s[1..], f)
  }

  lemma MapCons<T, U>(x: T, s: seq<T>, f: T -> U)
    ensures Map([x] + s, f) == [f(x)] + Map(s, f)
  {
    assert ([x] + s)[1..] == s;
  }

  /** How many of the indexes base, ..., base + n - 1 are in `removed`. */
  function MarkedBetween(removed: set<nat>, base: nat, n: nat): (m: nat)
    ensures m <= n
    decreases n
  {
    if n == 0 then 0 else (if base in removed then 1 else 0) + MarkedBetween(removed, base + 1, n - 1)
  }

  /** The entities of `s` whose index (counted from `base`) is not in `removed`. */
  function SurvivorsFrom<T(==)>(s: seq<T>, removed: set<nat>, base: nat): (r: seq<T>)
    ensures |r| == |s| - MarkedBetween(removed, base, |s|)
    ensures IsSubsequence(r, s)
    ensures forall i :: 0 <= i < |s| && base + i !in removed ==> s[i] in r
    decreases |s|
  {
    if s == [] then []
    else
      var rest := SurvivorsFrom(s[1..], removed, base + 1);
      assert forall i :: 1 <= i < |s| ==> s[i] == s[1..][i - 1];
      if base in removed then rest else [s[0]] + rest
  }

  /** An unmarked entity keeps its place among the survivors: it moves up by
      the number of marked entities before it. */
  lemma {:induction false} SurvivorsFromPlaces<T>(s: seq<T>, removed: set<nat>, base: nat, i: nat)
    requires i < |s| && base + i !in removed
    ensures var r := SurvivorsFrom(s, removed, base);
            i - MarkedBetween(removed, base, i) < |r| && r[i - MarkedBetween(removed, base, i)] == s[i]
    decreases |s|
  {
    var rest := SurvivorsFrom(s[1..], removed, base + 1);
    if i == 0 {
      assert SurvivorsFrom(s, removed, base) == [s[0]] + rest;
    } else {
      SurvivorsFromPlaces(s[1..], removed, base + 1, i - 1);
      assert s[1..][i - 1] == s[i];
      var j := i - 1 - MarkedBetween(removed, base + 1, i - 1);
      if base in removed {
        assert SurvivorsFrom(s, removed, base) == rest;
        assert i - MarkedBetween(removed, base, i) == j;
      } else {
        assert SurvivorsFrom(s, removed, base) == [s[0]] + rest;
        assert i - MarkedBetween(removed, base, i) == j + 1;
      }
    }
  }

  /** The filter by index set that collision resolution applies to bullets and
      enemies: exactly the unmarked entities are kept, in their original order. */
  function Survivors<T(==)>(s: seq<T>, removed: set<nat>): (r: seq<T>)
    ensures |r| == |s| - MarkedBetween(removed, 0, |s|)
    ensures IsSubsequence(r, s)
    ensures forall i :: 0 <= i < |s| && i !in removed ==> s[i] in r
  {
    SurvivorsFrom(s, removed, 0)
  }

  /** The i-th entity, if unmarked, is the survivor at index i minus the number
      of marked entities before it, so survivors keep their relative order and
      their multiplicity. */
  lemma SurvivorsPlaces<T>(s: seq<T>, removed: set<nat>, i: nat)
    requires i < |s| && i !in removed
    ensures var r := Survivors(s, removed);
            i - MarkedBetween(removed, 0, i) < |r| && r[i - MarkedBetween(removed, 0, i)] == s[i]
  {
    SurvivorsFromPlaces(s, removed, 0, i);
  }

  /** Bullets still on screen (y > 0) move up by 10 pixels. */
  function MoveBullets(bs: seq<Bullet>): (r: seq<Bullet>)
    ensures |r| <= |bs|
    ensures forall i :: 0 <= i < |r| ==> r[i].y > -BulletStep
    decreases |bs|
  {
    if bs == [] then []
    else
      var rest := MoveBullets(bs[1..]);
      if bs[0].y > 0.0 then [bs[0].(y := bs[0].y - BulletStep)] + rest else rest
  }

  /** Every Bullet that is still in play comes out moved by one step. */
  lemma {:induction false} MoveBulletsKeeps(bs: seq<Bullet>, b: Bullet)
    requires b in bs && b.y > 0.0
    ensures b.(y := b.y - BulletStep) in MoveBullets(bs)
    decreases |bs|
  {
    if b != bs[0] {
      MoveBulletsKeeps(bs[1..], b);
    }
  }

  /** Every Bullet that comes out is an input that was still in play, moved by one step. */
  lemma {:induction false} MoveBulletsOrigin(bs: seq<Bullet>, b: Bullet)
    requires b in MoveBullets(bs)
    ensures b.(y := b.y + BulletStep) in bs
    ensures (b.y + BulletStep) > 0.0
    decreases |bs|
  {
    var rest := MoveBullets(bs[1..]);
    if b in rest {
      MoveBulletsOrigin(bs[1..], b);
    }
  }

  /** Power-ups above the bottom edge move down by 2 pixels. */
  function MovePowerUps(ps: seq<PowerUp>): (r: seq<PowerUp>)
    ensures |r| <= |ps|
    ensures forall i :: 0 <= i < |r| ==> r[i].y < ContainerHeight + PowerUpStep
    decreases |ps|
  {
    if ps == [] then []
    else
      var rest := MovePowerUps(ps[1..]);
      if ps[0].y < ContainerHeight then [ps[0].(y := ps[0].y + PowerUpStep)] + rest else rest
  }

  /** Every PowerUp that is still in play comes out moved by one step. */
  lemma {:induction false} MovePowerUpsKeeps(ps: seq<PowerUp>, p: PowerUp)
    requires p in ps && p.y < ContainerHeight
    ensures p.(y := p.y + PowerUpStep) in MovePowerUps(ps)
    decreases |ps|
  {
    if p != ps[0] {
      MovePowerUpsKeeps(ps[1..], p);
    }
  }

  /** Every PowerUp that comes out is an input that was still in play, moved by one step. */
  lemma {:induction false} MovePowerUpsOrigin(ps: seq<PowerUp>, p: PowerUp)
    requires p in MovePowerUps(ps)
    ensures p.(y := p.y - PowerUpStep) in ps
    ensures (p.y - PowerUpStep) < ContainerHeight
    decreases |ps|
  {
    var rest := MovePowerUps(ps[1..]);
    if p in rest {
      MovePowerUpsOrigin(ps[1..], p);
    }
  }

  /** Enemy bullets above the bottom edge move down by 4 pixels. */
  function MoveEnemyBullets(ebs: seq<EnemyBullet>): (r: seq<EnemyBullet>)
    ensures |r| <= |ebs|
    ensures forall i :: 0 <= i < |r| ==> r[i].y < ContainerHeight + EnemyBulletStep
    decreases |ebs|
  {
    if ebs == [] then []
    else
      var rest := MoveEnemyBullets(ebs[1..]);
      if ebs[0].y < ContainerHeight then [ebs[0].(y := ebs[0].y + EnemyBulletStep)] + rest else rest
  }

  /** Every EnemyBullet that is still in play comes out moved by one step. */
  lemma {:induction false} MoveEnemyBulletsKeeps(ebs: seq<EnemyBullet>, b: EnemyBullet)
    requires b in ebs && b.y < ContainerHeight
    ensures b.(y := b.y + EnemyBulletStep) in MoveEnemyBullets(ebs)
    decreases |ebs|
  {
    if b != ebs[0] {
      MoveEnemyBulletsKeeps(ebs[1..], b);
    }
  }

  /** Every EnemyBullet that comes out is an input that was still in play, moved by one step. */
  lemma {:induction false} MoveEnemyBulletsOrigin(ebs: seq<EnemyBullet>, b: EnemyBullet)
    requires b in MoveEnemyBullets(ebs)
    ensures b.(y := b.y - EnemyBulletStep) in ebs
    ensures (b.y - EnemyBulletStep) < ContainerHeight
    decreases |ebs|
  {
    var rest := MoveEnemyBullets(ebs[1..]);
    if b in rest {
      MoveEnemyBulletsOrigin(ebs[1..], b);
    }
  }

  /** The prune and move steps of the three pools, one entity at a time. */
  predicate BulletInPlay(b: Bullet) { b.y > 0.0 }
  function BulletMoved(b: Bullet): (r: Bullet) { b.(y := b.y - BulletStep) }
  predicate PowerUpInPlay(p: PowerUp) { p.y < ContainerHeight }
  function PowerUpMoved(p: PowerUp): (r: PowerUp) { p.(y := p.y + PowerUpStep) }
  predicate ShotInPlay(b: EnemyBullet) { b.y < ContainerHeight }
  function ShotMoved(b: EnemyBullet): (r: EnemyBullet) { b.(y := b.y + EnemyBulletStep) }

  /** Bullet motion is the filter of the bullets still on screen followed by the
      move of each one, so order and repeats are kept. */
  lemma {:induction false} MoveBulletsIsShiftedFilter(bs: seq<Bullet>)
    ensures MoveBullets(bs) == Map(Filter(bs, BulletInPlay), BulletMoved)
    decreases |bs|
  {
    if bs != [] {
      MoveBulletsIsShiftedFilter(bs[1..]);
      if BulletInPlay(bs[0]) {
        MapCons(bs[0], Filter(bs[1..], BulletInPlay), BulletMoved);
      }
    }
  }

  /** Power-up motion is the filter of the live power-ups followed by the move. */
  lemma {:induction false} MovePowerUpsIsShiftedFilter(ps: seq<PowerUp>)
    ensures MovePowerUps(ps) == Map(Filter(ps, PowerUpInPlay), PowerUpMoved)
    decreases |ps|
  {
    if ps != [] {
      MovePowerUpsIsShiftedFilter(ps[1..]);
      if PowerUpInPlay(ps[0]) {
        MapCons(ps[0], Filter(ps[1..], PowerUpInPlay), PowerUpMoved);
      }
    }
  }

  /** Enemy-bullet motion is the filter of the live shots followed by the move. */
  lemma {:induction false} MoveEnemyBulletsIsShiftedFilter(ebs: seq<EnemyBullet>)
    ensures MoveEnemyBullets(ebs) == Map(Filter(ebs, ShotInPlay), ShotMoved)
    decreases |ebs|
  {
    if ebs != [] {
      MoveEnemyBulletsIsShiftedFilter(ebs[1..]);
      if ShotInPlay(ebs[0]) {
        MapCons(ebs[0], Filter(ebs[1..], ShotInPlay), ShotMoved);
      }
    }
  }

  /** The pruning boundary: a bullet at y = 10 moves to y = 0 and stays, and is
      gone on the next tick. */
  lemma BulletPruneBoundary(x: real, powered: bool)
    ensures MoveBullets([Bullet(x, 10.0, powered)]) == [Bullet(x, 0.0, powered)]
    ensures MoveBullets([Bullet(x, 0.0, powered)]) == []
  {
  }

  /** An enemy fires when its cooldown has passed (`now - lastShot > interval`)
      and its fire draw exceeds 0.98. */
  predicate Fires(e: Enemy, now: real, interval: int, draw: real)
  {
    now - e.lastShot > interval as real && draw > ShootChance
  }

  /** The shot an enemy fires, from 50 pixels below its position before the move. */
  function ShotFrom(e: Enemy): (r: EnemyBullet)
  {
    EnemyBullet(e.x, e.y + 50.0)
  }

  /** The shots the enemies `es` fire, in order, `fire(k)` being the draw of `es[0]`. */
  function FiredShots(es: seq<Enemy>, now: real, interval: int, fire: nat -> real, k: nat): (r: seq<EnemyBullet>)
    decreases |es|
  {
    if es == [] then []
    else (if Fires(es[0], now, interval, fire(k)) then [ShotFrom(es[0])] else [])
         + FiredShots(es[1..], now, interval, fire, k + 1)
  }

  /** Shots spawned one after another into the enemy-bullet pool, each one
      dropped while the pool is full. */
  function AppendShots(pool: seq<EnemyBullet>, shots: seq<EnemyBullet>): (r: seq<EnemyBullet>)
    decreases |shots|
  {
    if shots == [] then pool
    else AppendShots(CappedAppend(pool, MaxEnemyBullets, shots[0]), shots[1..])
  }

  /** Spawning shots one by one keeps exactly the first ones that fit under the cap of 10. */
  lemma {:induction false} AppendShotsKeepsFirst(pool: seq<EnemyBullet>, shots: seq<EnemyBullet>)
    requires |pool| <= MaxEnemyBullets
    ensures var room := MaxEnemyBullets - |pool|;
            AppendShots(pool, shots) == pool + shots[..if |shots| < room then |shots| else room]
    decreases |shots|
  {
    if shots != [] {
      var room := MaxEnemyBullets - |pool|;
      if room == 0 {
        AppendShotsKeepsFirst(pool, shots[1..]);
      } else {
        AppendShotsKeepsFirst(pool + [shots[0]], shots[1..]);
        var taken := if |shots| < room then |shots| else room;
        assert shots[1..][..taken - 1] == shots[1..taken];
        assert pool + [shots[0]] + shots[1..taken] == pool + shots[..taken];
      }
    }
  }

  /** Enemies that survived pruning descend by `speed`; each one that fires
      fires a shot (dropped if the enemy-bullet pool is full) and records `now`
      as its last shot. `fire(k)` is the draw of the k-th moving enemy. */
  function FireAndMove(es: seq<Enemy>, ebs: seq<EnemyBullet>, now: real, speed: real,
                       interval: int, fire: nat -> real, k: nat): (r: (seq<Enemy>, seq<EnemyBullet>))
    ensures |r.0| == |es|
    ensures ebs <= r.1 && |r.1| <= |ebs| + |es|
    ensures |ebs| <= MaxEnemyBullets ==> |r.1| <= MaxEnemyBullets
    decreases |es|
  {
    if es == [] then ([], ebs)
    else
      var e := es[0];
      var shoots := Fires(e, now, interval, fire(k));
      var moved := Enemy(e.x, e.y + speed, if shoots then now else e.lastShot);
      var ebs' := if shoots then CappedAppend(ebs, MaxEnemyBullets, ShotFrom(e)) else ebs;
      var rest := FireAndMove(es[1..], ebs', now, speed, interval, fire, k + 1);
      ([moved] + rest.0, rest.1)
  }

  /** The i-th moving enemy keeps its column, descends by `speed`, and records
      `now` as its last shot exactly when it fires. */
  lemma {:induction false} FireAndMoveMoves(es: seq<Enemy>, ebs: seq<EnemyBullet>, now: real, speed: real,
                                            interval: int, fire: nat -> real, k: nat, i: nat)
    requires i < |es|
    ensures var m := FireAndMove(es, ebs, now, speed, interval, fire, k).0[i];
            m.x == es[i].x && m.y == es[i].y + speed &&
            m.lastShot == if Fires(es[i], now, interval, fire(k + i)) then now else es[i].lastShot
    decreases |es|
  {
    if i > 0 {
      var e := es[0];
      var ebs' := if Fires(e, now, interval, fire(k)) then CappedAppend(ebs, MaxEnemyBullets, ShotFrom(e)) else ebs;
      FireAndMoveMoves(es[1..], ebs', now, speed, interval, fire, k + 1, i - 1);
    }
  }

  /** The shots the moving enemies add are exactly the shots of the enemies that
      fire, in order, each spawned under the cap of 10. */
  lemma {:induction false} FireAndMoveShots(es: seq<Enemy>, ebs: seq<EnemyBullet>, now: real, speed: real,
                                            interval: int, fire: nat -> real, k: nat)
    ensures FireAndMove(es, ebs, now, speed, interval, fire, k).1
         == AppendShots(ebs, FiredShots(es, now, interval, fire, k))
    decreases |es|
  {
    if es != [] {
      var e := es[0];
      var shoots := Fires(e, now, interval, fire(k));
      var ebs' := if shoots then CappedAppend(ebs, MaxEnemyBullets, ShotFrom(e)) else ebs;
      var tail := FiredShots(es[1..], now, interval, fire, k + 1);
      FireAndMoveShots(es[1..], ebs', now, speed, interval, fire, k + 1);
      if shoots {
        assert ([ShotFrom(e)] + tail)[1..] == tail;
      } else {
        assert [] + tail == tail;
      }
    }
  }

  /** Enemies still above the bottom edge. */
  predicate OnField(e: Enemy) { e.y < ContainerHeight }

  /** The enemy phase of a tick: prune the enemies that reached the bottom
      edge, then move the rest, in order, and let them fire. */
  function AdvanceEnemies(es: seq<Enemy>, ebs: seq<EnemyBullet>, now: real, speed: real,
                          interval: int, fire: nat -> real): (r: (seq<Enemy>, seq<EnemyBullet>))
    ensures |r.0| == |Filter(es, OnField)|
    ensures r.1 == AppendShots(ebs, FiredShots(Filter(es, OnField), now, interval, fire, 0))
    ensures |r.0| <= |es|
    ensures forall e :: e in r.0 ==> e.y - speed < ContainerHeight
    ensures ebs <= r.1
    ensures |ebs| <= MaxEnemyBullets ==> |r.1| <= MaxEnemyBullets
  {
    var live := Filter(es, OnField);
    var r := FireAndMove(live, ebs, now, speed, interval, fire, 0);
    FireAndMoveShots(live, ebs, now, speed, interval, fire, 0);
    assert forall e :: e in r.0 ==> e.y - speed < ContainerHeight by {
      forall e | e in r.0 ensures e.y - speed < ContainerHeight {
        var i :| 0 <= i < |r.0| && r.0[i] == e;
        FireAndMoveMoves(live, ebs, now, speed, interval, fire, 0, i);
        assert live[i] in live;
      }
    }
    r
  }

  /** The i-th enemy still on the field keeps its column, descends by `speed`,
      and records `now` as its last shot exactly when its draw wins and its
      interval has passed. */
  lemma AdvanceEnemiesMoves(es: seq<Enemy>, ebs: seq<EnemyBullet>, now: real, speed: real,
                            interval: int, fire: nat -> real, i: nat)
    requires i < |Filter(es, OnField)|
    ensures var live := Filter(es, OnField);
            var m := AdvanceEnemies(es, ebs, now, speed, interval, fire).0[i];
            m.x == live[i].x && m.y == live[i].y + speed &&
            m.lastShot == if Fires(live[i], now, interval, fire(i)) then now else live[i].lastShot
  {
    FireAndMoveMoves(Filter(es, OnField), ebs, now, speed, interval, fire, 0, i);
  }

  /** Every enemy above the bottom edge comes out moved down by `speed`. */
  lemma AdvanceEnemiesKeeps(es: seq<Enemy>, ebs: seq<EnemyBullet>, now: real, speed: real,
                            interval: int, fire: nat -> real, e: Enemy)
    requires e in es && e.y < ContainerHeight
    ensures exists m :: m in AdvanceEnemies(es, ebs, now, speed, interval, fire).0 &&
                        m.x == e.x && m.y == e.y + speed
  {
    var live := Filter(es, OnField);
    var r := AdvanceEnemies(es, ebs, now, speed, interval, fire).0;
    assert e in live;
    var i :| 0 <= i < |live| && live[i] == e;
    AdvanceEnemiesMoves(es, ebs, now, speed, interval, fire, i);
    assert r[i] in r && r[i].x == e.x && r[i].y == e.y + speed;
  }

  /** Every enemy that comes out was above the bottom edge and has moved down by `speed`. */
  lemma AdvanceEnemiesOrigin(es: seq<Enemy>, ebs: seq<EnemyBullet>, now: real, speed: real,
                             interval: int, fire: nat -> real, m: Enemy)
    requires m in AdvanceEnemies(es, ebs, now, speed, interval, fire).0
    ensures exists e :: e in es && e.y < ContainerHeight && m.x == e.x && m.y == e.y + speed
  {
    var live := Filter(es, OnField);
    var r := AdvanceEnemies(es, ebs, now, speed, interval, fire).0;
    var i :| 0 <= i < |r| && r[i] == m;
    AdvanceEnemiesMoves(es, ebs, now, speed, interval, fire, i);
    assert live[i] in live;
  }

  /** Explosions younger than 300 ms survive. */
  function ExpireExplosions(xs: seq<Explosion>, now: real): (r: seq<Explosion>)
    ensures IsSubsequence(r, xs)
    ensures forall x :: x in r <==> x in xs && now - x.born < ExplosionLifetime
  {
    Filter(xs, (x: Explosion) => now - x.born < ExplosionLifetime)
  }

  /** A filter whose test every entity passes keeps the pool as it is. */
  lemma {:induction false} FilterKeepsAll<T(!new)>(s: seq<T>, keep: T -> bool)
    requires forall x :: x in s ==> keep(x)
    ensures Filter(s, keep) == s
    decreases |s|
  {
    if s != [] {
      assert forall x :: x in s[1..] ==> x in s;
      FilterKeepsAll(s[1..], keep);
    }
  }

  /** An explosion stamped with the frame time lasts exactly 300 ms: at frame
      time `now` it survives if and only if it is younger than that. */
  lemma ExplosionLifetimeExact(xs: seq<Explosion>, now: real, x: Explosion)
    requires x in xs
    ensures x in ExpireExplosions(xs, now) <==> now < x.born + ExplosionLifetime
  {
  }

  /** Explosions all stamped at least 300 ms before `now` are all gone. */
  lemma StaleExplosionsExpire(xs: seq<Explosion>, now: real)
    requires forall x :: x in xs ==> x.born + ExplosionLifetime <= now
    ensures ExpireExplosions(xs, now) == []
  {
  }

  /** As written, an explosion is stamped with the wall clock (milliseconds since
      1970, plus a draw in [0, 1)) while the frame time it is aged against counts
      from page load. A stamp taken after the page loaded at wall-clock time
      `pageLoad` is then never 300 ms behind the frame time until the frame time
      itself reaches `pageLoad`, so no explosion expires. */
  lemma WallClockStampsNeverExpire(xs: seq<Explosion>, now: real, pageLoad: real)
    requires forall x :: x in xs ==> x.born >= pageLoad
    requires now < pageLoad + ExplosionLifetime
    ensures ExpireExplosions(xs, now) == xs
  {
    FilterKeepsAll(xs, (x: Explosion) => now - x.born < ExplosionLifetime);
  }

  /** As written: an explosion made one second after a page load at wall-clock
      time 1.7e12 ms (in 2023) is still present a minute later. Stamped with the
      frame time instead, it is gone. */
  lemma ExplosionOutlivesLifetimeAsWritten()
    ensures var asWritten := [Explosion(50.0, 100.0, 1700000001000.5)];
            ExpireExplosions(asWritten, 61000.0) == asWritten
    ensures ExpireExplosions([Explosion(50.0, 100.0, 1000.0)], 61000.0) == []
  {
    WallClockStampsNeverExpire([Explosion(50.0, 100.0, 1700000001000.5)], 61000.0, 1700000000000.0);
    StaleExplosionsExpire([Explosion(50.0, 100.0, 1000.0)], 61000.0);
  }

  /** Horizontal spawn position of enemies and power-ups from a draw in [0, 1). */
  function SpawnX(draw: real): (x: real)
    ensures 0.0 <= draw < 1.0 ==> 5.0 <= x < 95.0
  {
    draw * 90.0 + 5.0
  }

  /** The kind of a new power-up: the draw picks one of the three kinds with
      equal probability. */
  function PowerUpKindOf(draw: real): (kind: PowerUpKind)
    requires 0.0 <= draw < 1.0
    ensures kind == Heart <==> draw < 1.0 / 3.0
    ensures kind == Shield <==> 1.0 / 3.0 <= draw < 2.0 / 3.0
    ensures kind == Ammo <==> 2.0 / 3.0 <= draw
  {
    var index := (draw * 3.0).Floor;
    if index == 0 then Heart else if index == 1 then Shield else Ammo
  }
}
