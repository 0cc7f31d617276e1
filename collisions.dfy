/** Collision resolution of one tick: player bullets against enemies, the jet
    against power-ups, and enemies and enemy bullets against the jet. */
module Collisions {
  import opened Options
  import opened Geometry
  import opened Entities
  import opened Pools

  /** Box sizes, in pixels. */
  const BulletWidth: real := 4.0
  const BulletHeight: real := 15.0
  const PoweredBulletWidth: real := 12.0
  const PoweredBulletHeight: real := 25.0
  const EnemySize: real := 50.0
  const PowerUpSize: real := 40.0
  const EnemyBulletSize: real := 6.0
  const JetSize: real := 50.0
  /** The jet's top edge, 60 pixels above the bottom of the playfield. */
  const JetY: real := ContainerHeight - 60.0

  const ScorePerKill: int := 100
  const EnemyDamage: int := 20
  const EnemyBulletDamage: int := 10
  /** An unpowered hit destroys its enemy only when the kill draw exceeds this. */
  const GrazeChance: real := 0.1

  predicate BulletHitsEnemy(width: Option<nat>, b: Bullet, e: Enemy)
  {
    CheckCollision(width, b.x, b.y,
                   if b.powered then PoweredBulletWidth else BulletWidth,
                   if b.powered then PoweredBulletHeight else BulletHeight,
                   e.x, e.y, EnemySize, EnemySize)
  }

  predicate PowerUpTouchesJet(width: Option<nat>, p: PowerUp, jetX: real)
  {
    CheckCollision(width, p.x, p.y, PowerUpSize, PowerUpSize, jetX, JetY, JetSize, JetSize)
  }

  predicate EnemyTouchesJet(width: Option<nat>, e: Enemy, jetX: real)
  {
    CheckCollision(width, e.x, e.y, EnemySize, EnemySize, jetX, JetY, JetSize, JetSize)
  }

  predicate ShotTouchesJet(width: Option<nat>, b: EnemyBullet, jetX: real)
  {
    CheckCollision(width, b.x, b.y, EnemyBulletSize, EnemyBulletSize, jetX, JetY, JetSize, JetSize)
  }

  /** Health after taking `amount` damage, floored at 0. */
  function Damage(health: int, amount: int): (h: int)
    requires amount >= 0
    ensures h >= 0 && (h == 0 || h == health - amount)
    ensures health - amount <= h
    ensures 0 <= health <= 100 ==> 0 <= h <= health
  {
    if health - amount < 0 then 0 else health - amount
  }

  /** Damage taken in two portions equals the damage taken at once. */
  lemma DamageAdds(health: int, a: int, b: int)
    requires a >= 0 && b >= 0
    ensures Damage(Damage(health, a), b) == Damage(health, a + b)
  {
  }

  // ---------------------------------------------------------------------
  // Bullets against enemies

  /** The first enemy at index `from` or later that is not yet marked removed
      and that the bullet overlaps. */
  function FirstTarget(width: Option<nat>, b: Bullet, es: seq<Enemy>, marked: set<nat>, from: nat): (t: Option<nat>)
    requires from <= |es|
    ensures t.Some? ==> from <= t.value < |es| && t.value !in marked && BulletHitsEnemy(width, b, es[t.value])
    ensures t.Some? ==> forall j :: from <= j < t.value ==> j in marked || !BulletHitsEnemy(width, b, es[j])
    ensures t.None? ==> forall j :: from <= j < |es| ==> j in marked || !BulletHitsEnemy(width, b, es[j])
    decreases |es| - from
  {
    if from == |es| then None
    else if from !in marked && BulletHitsEnemy(width, b, es[from]) then Some(from)
    else FirstTarget(width, b, es, marked, from + 1)
  }

  /** One bullet's hit: the enemy it struck and whether that enemy was destroyed. */
  datatype Hit = Hit(bullet: nat, enemy: nat, destroyed: bool)

  /** What the bullet pass has decided so far. */
  datatype HitScan = HitScan(removedBullets: set<nat>, removedEnemies: set<nat>,
                             explosions: seq<Explosion>, scoreIncrease: int, hits: seq<Hit>)

  /** Reference definition of the bullet pass over the first n bullets: each
      bullet in turn strikes the first unmarked enemy it overlaps, if any; the
      bullet is always consumed, and the enemy is destroyed when the bullet is
      powered or the bullet's kill draw `kill(i)` exceeds 0.1. */
  function ScanBullets(width: Option<nat>, bs: seq<Bullet>, es: seq<Enemy>, kill: nat -> real,
                       now: real, n: nat): HitScan
    requires n <= |bs|
    decreases n
  {
    if n == 0 then HitScan({}, {}, [], 0, [])
    else
      var s := ScanBullets(width, bs, es, kill, now, n - 1);
      var b := bs[n - 1];
      match FirstTarget(width, b, es, s.removedEnemies, 0)
      case None => s
      case Some(e) =>
        if b.powered || kill(n - 1) > GrazeChance then
          HitScan(s.removedBullets + {n - 1}, s.removedEnemies + {e},
                  s.explosions + [Explosion(es[e].x, es[e].y, now)],
                  s.scoreIncrease + ScorePerKill, s.hits + [Hit(n - 1, e, true)])
        else
          HitScan(s.removedBullets + {n - 1}, s.removedEnemies, s.explosions,
                  s.scoreIncrease, s.hits + [Hit(n - 1, e, false)])
  }

  /** Every hit is a real overlap of a bullet of the prefix with an enemy, a
      powered bullet always destroys what it hits, the hitting bullet is
      consumed and a destroyed enemy is removed. */
  predicate HitsGenuine(width: Option<nat>, bs: seq<Bullet>, es: seq<Enemy>, n: nat, s: HitScan)
    requires n <= |bs|
  {
    forall k :: 0 <= k < |s.hits| ==>
      s.hits[k].bullet < n && s.hits[k].enemy < |es| &&
      BulletHitsEnemy(width, bs[s.hits[k].bullet], es[s.hits[k].enemy]) &&
      (bs[s.hits[k].bullet].powered ==> s.hits[k].destroyed) &&
      s.hits[k].bullet in s.removedBullets &&
      (s.hits[k].destroyed ==> s.hits[k].enemy in s.removedEnemies)
  }

  /** Hits come in bullet order, so no bullet has more than one. */
  predicate OneHitPerBullet(s: HitScan)
  {
    forall j, k :: 0 <= j < k < |s.hits| ==> s.hits[j].bullet < s.hits[k].bullet
  }

  /** No enemy is destroyed twice. */
  predicate DestroyedOnce(s: HitScan)
  {
    forall j, k :: 0 <= j < k < |s.hits| && s.hits[j].destroyed && s.hits[k].destroyed ==>
      s.hits[j].enemy != s.hits[k].enemy
  }

  /** The removed bullets are exactly the hitting bullets, and the removed
      enemies exactly the destroyed ones. */
  predicate RemovalsExplained(s: HitScan)
  {
    (forall b :: b in s.removedBullets ==> exists k :: 0 <= k < |s.hits| && s.hits[k].bullet == b) &&
    (forall e :: e in s.removedEnemies ==>
       exists k :: 0 <= k < |s.hits| && s.hits[k].destroyed && s.hits[k].enemy == e)
  }

  /** The bookkeeping of the bullet pass: indexes stay in range, the score
      rises by 100 per destroyed enemy, there is one explosion per destroyed
      enemy, one hit per consumed bullet, and no bullet destroys more than one
      enemy. */
  lemma {:induction false} ScanBulletsCounts(width: Option<nat>, bs: seq<Bullet>, es: seq<Enemy>,
                                             kill: nat -> real, now: real, n: nat)
    requires n <= |bs|
    ensures var s := ScanBullets(width, bs, es, kill, now, n);
            (forall b :: b in s.removedBullets ==> b < n) &&
            (forall e :: e in s.removedEnemies ==> e < |es|) &&
            s.scoreIncrease == ScorePerKill * |s.removedEnemies| &&
            |s.explosions| == |s.removedEnemies| &&
            |s.hits| == |s.removedBullets| &&
            |s.removedEnemies| <= |s.removedBullets|
    decreases n
  {
    if n > 0 {
      ScanBulletsCounts(width, bs, es, kill, now, n - 1);
      var s := ScanBullets(width, bs, es, kill, now, n - 1);
      assert n - 1 !in s.removedBullets;
      match FirstTarget(width, bs[n - 1], es, s.removedEnemies, 0)
      case None =>
      case Some(e) =>
        assert e !in s.removedEnemies;
    }
  }

  /** Each explosion of the bullet pass sits where a destroyed enemy was. */
  lemma {:induction false} ScanBulletsExplosions(width: Option<nat>, bs: seq<Bullet>, es: seq<Enemy>,
                                                 kill: nat -> real, now: real, n: nat)
    requires n <= |bs|
    ensures var s := ScanBullets(width, bs, es, kill, now, n);
            forall x :: x in s.explosions ==>
              x.born == now && exists e :: e in s.removedEnemies && e < |es| && x.x == es[e].x && x.y == es[e].y
    decreases n
  {
    if n > 0 {
      ScanBulletsExplosions(width, bs, es, kill, now, n - 1);
    }
  }

  lemma {:induction false} ScanBulletsHitsGenuine(width: Option<nat>, bs: seq<Bullet>, es: seq<Enemy>,
                                                  kill: nat -> real, now: real, n: nat)
    requires n <= |bs|
    ensures HitsGenuine(width, bs, es, n, ScanBullets(width, bs, es, kill, now, n))
    decreases n
  {
    if n > 0 {
      ScanBulletsHitsGenuine(width, bs, es, kill, now, n - 1);
    }
  }

  lemma {:induction false} ScanBulletsOneHitPerBullet(width: Option<nat>, bs: seq<Bullet>, es: seq<Enemy>,
                                                      kill: nat -> real, now: real, n: nat)
    requires n <= |bs|
    ensures OneHitPerBullet(ScanBullets(width, bs, es, kill, now, n))
    decreases n
  {
    if n > 0 {
      ScanBulletsOneHitPerBullet(width, bs, es, kill, now, n - 1);
      ScanBulletsHitsGenuine(width, bs, es, kill, now, n - 1);
    }
  }

  lemma {:induction false} ScanBulletsDestroyedOnce(width: Option<nat>, bs: seq<Bullet>, es: seq<Enemy>,
                                                    kill: nat -> real, now: real, n: nat)
    requires n <= |bs|
    ensures DestroyedOnce(ScanBullets(width, bs, es, kill, now, n))
    decreases n
  {
    if n > 0 {
      ScanBulletsDestroyedOnce(width, bs, es, kill, now, n - 1);
      ScanBulletsHitsGenuine(width, bs, es, kill, now, n - 1);
      var s := ScanBullets(width, bs, es, kill, now, n - 1);
      match FirstTarget(width, bs[n - 1], es, s.removedEnemies, 0)
      case None =>
      case Some(e) =>
        assert e !in s.removedEnemies;
    }
  }

  lemma {:induction false} ScanBulletsRemovalsExplained(width: Option<nat>, bs: seq<Bullet>, es: seq<Enemy>,
                                                        kill: nat -> real, now: real, n: nat)
    requires n <= |bs|
    ensures RemovalsExplained(ScanBullets(width, bs, es, kill, now, n))
    decreases n
  {
    if n > 0 {
      ScanBulletsRemovalsExplained(width, bs, es, kill, now, n - 1);
      var s := ScanBullets(width, bs, es, kill, now, n - 1);
      var s' := ScanBullets(width, bs, es, kill, now, n);
      match FirstTarget(width, bs[n - 1], es, s.removedEnemies, 0)
      case None =>
      case Some(e) =>
        assert forall k :: 0 <= k < |s.hits| ==> s'.hits[k] == s.hits[k];
        var last := |s.hits|;
        forall b' | b' in s'.removedBullets
          ensures exists k :: 0 <= k < |s'.hits| && s'.hits[k].bullet == b'
        {
          if b' != n - 1 {
            var k :| 0 <= k < |s.hits| && s.hits[k].bullet == b';
            assert s'.hits[k].bullet == b';
          } else {
            assert s'.hits[last].bullet == b';
          }
        }
        forall e' | e' in s'.removedEnemies
          ensures exists k :: 0 <= k < |s'.hits| && s'.hits[k].destroyed && s'.hits[k].enemy == e'
        {
          if e' in s.removedEnemies {
            var k :| 0 <= k < |s.hits| && s.hits[k].destroyed && s.hits[k].enemy == e';
            assert s'.hits[k].destroyed && s'.hits[k].enemy == e';
          } else {
            assert s'.hits[last].destroyed && s'.hits[last].enemy == e';
          }
        }
    }
  }

  /** A bullet is consumed exactly when, at its turn, it overlapped an enemy
      that earlier bullets had not destroyed. */
  lemma {:induction false} BulletRemovedIffItHit(width: Option<nat>, bs: seq<Bullet>, es: seq<Enemy>,
                                                 kill: nat -> real, now: real, b: nat, n: nat)
    requires b < n <= |bs|
    ensures b in ScanBullets(width, bs, es, kill, now, n).removedBullets
        <==> FirstTarget(width, bs[b], es, ScanBullets(width, bs, es, kill, now, b).removedEnemies, 0).Some?
    decreases n
  {
    var s := ScanBullets(width, bs, es, kill, now, n - 1);
    var removed := ScanBullets(width, bs, es, kill, now, n).removedBullets;
    match FirstTarget(width, bs[n - 1], es, s.removedEnemies, 0) {
      case None =>
        assert removed == s.removedBullets;
      case Some(e) =>
        assert removed == s.removedBullets + {n - 1};
    }
    if b < n - 1 {
      BulletRemovedIffItHit(width, bs, es, kill, now, b, n - 1);
    } else {
      ScanBulletsCounts(width, bs, es, kill, now, b);
      assert b !in s.removedBullets;
    }
  }

  /** The bullet-against-enemy pass as the game runs it: for each bullet, scan
      the enemies in order for the first one not yet marked that it overlaps,
      mark the bullet, decide the kill, and stop scanning. */
  method ResolveBulletHits(width: Option<nat>, bs: seq<Bullet>, es: seq<Enemy>, kill: nat -> real, now: real)
    returns (removedBullets: set<nat>, removedEnemies: set<nat>, newExplosions: seq<Explosion>, scoreIncrease: int)
    ensures var s := ScanBullets(width, bs, es, kill, now, |bs|);
            removedBullets == s.removedBullets && removedEnemies == s.removedEnemies &&
            newExplosions == s.explosions && scoreIncrease == s.scoreIncrease
    ensures forall b :: b in removedBullets ==> b < |bs|
    ensures forall e :: e in removedEnemies ==> e < |es|
    ensures scoreIncrease == ScorePerKill * |removedEnemies| && |newExplosions| == |removedEnemies|
    ensures |removedEnemies| <= |removedBullets|
  {
    removedBullets, removedEnemies, newExplosions, scoreIncrease := {}, {}, [], 0;
    ghost var hits: seq<Hit> := [];
    var b := 0;
    while b < |bs|
      invariant 0 <= b <= |bs|
      invariant ScanBullets(width, bs, es, kill, now, b)
             == HitScan(removedBullets, removedEnemies, newExplosions, scoreIncrease, hits)
    {
      var bullet := bs[b];
      ghost var before := HitScan(removedBullets, removedEnemies, newExplosions, scoreIncrease, hits);
      var e := 0;
      while e < |es|
        invariant 0 <= e <= |es|
        invariant before == HitScan(removedBullets, removedEnemies, newExplosions, scoreIncrease, hits)
        invariant FirstTarget(width, bullet, es, removedEnemies, e) == FirstTarget(width, bullet, es, removedEnemies, 0)
      {
        if e in removedEnemies {
          e := e + 1;
          continue;
        }
        var enemy := es[e];
        var bulletSize := if bullet.powered then PoweredBulletWidth else BulletWidth;
        var bulletHeight := if bullet.powered then PoweredBulletHeight else BulletHeight;
        if CheckCollision(width, bullet.x, bullet.y, bulletSize, bulletHeight, enemy.x, enemy.y, EnemySize, EnemySize) {
          removedBullets := removedBullets + {b};
          if bullet.powered || kill(b) > GrazeChance {
            removedEnemies := removedEnemies + {e};
            newExplosions := newExplosions + [Explosion(enemy.x, enemy.y, now)];
            scoreIncrease := scoreIncrease + ScorePerKill;
            hits := hits + [Hit(b, e, true)];
          } else {
            hits := hits + [Hit(b, e, false)];
          }
          break;
        }
        e := e + 1;
      }
      b := b + 1;
    }
    ScanBulletsCounts(width, bs, es, kill, now, |bs|);
  }

  // ---------------------------------------------------------------------
  // Power-ups against the jet

  /** The power-ups left after pickup, and which kinds were picked up. */
  datatype Pickup = Pickup(remaining: seq<PowerUp>, heart: bool, shield: bool, ammo: bool)

  /** Every power-up overlapping the jet is consumed. */
  function PickUp(width: Option<nat>, ps: seq<PowerUp>, jetX: real): (r: Pickup)
    ensures |r.remaining| <= |ps|
    ensures IsSubsequence(r.remaining, ps)
    ensures forall p :: p in r.remaining <==> p in ps && !PowerUpTouchesJet(width, p, jetX)
    ensures r.heart <==> exists p :: p in ps && p.kind == Heart && PowerUpTouchesJet(width, p, jetX)
    ensures r.shield <==> exists p :: p in ps && p.kind == Shield && PowerUpTouchesJet(width, p, jetX)
    ensures r.ammo <==> exists p :: p in ps && p.kind == Ammo && PowerUpTouchesJet(width, p, jetX)
    decreases |ps|
  {
    if ps == [] then Pickup([], false, false, false)
    else
      var p := ps[0];
      var rest := PickUp(width, ps[1..], jetX);
      assert forall q :: q in ps <==> q == p || q in ps[1..];
      if PowerUpTouchesJet(width, p, jetX) then
        Pickup(rest.remaining, rest.heart || p.kind == Heart, rest.shield || p.kind == Shield, rest.ammo || p.kind == Ammo)
      else
        Pickup([p] + rest.remaining, rest.heart, rest.shield, rest.ammo)
  }

  // ---------------------------------------------------------------------
  // Enemies and enemy bullets against the jet

  /** The enemies left after ramming, the explosions it caused, and the health left. */
  datatype Ram = Ram(survivors: seq<Enemy>, explosions: seq<Explosion>, health: int)

  /** Without a shield, each enemy overlapping the jet explodes, is removed and
      costs 20 health (floored at 0). */
  function RamJet(width: Option<nat>, es: seq<Enemy>, jetX: real, health: int, now: real): (r: Ram)
    requires health >= 0
    ensures IsSubsequence(r.survivors, es)
    ensures forall e :: e in r.survivors <==> e in es && !EnemyTouchesJet(width, e, jetX)
    ensures |r.survivors| + |r.explosions| == |es|
    ensures forall x :: x in r.explosions ==>
              x.born == now && exists e :: e in es && EnemyTouchesJet(width, e, jetX) && x.x == e.x && x.y == e.y
    ensures r.health == Damage(health, EnemyDamage * |r.explosions|)
    decreases |es|
  {
    if es == [] then Ram([], [], health)
    else
      var e := es[0];
      assert forall q :: q in es <==> q == e || q in es[1..];
      if EnemyTouchesJet(width, e, jetX) then
        var rest := RamJet(width, es[1..], jetX, Damage(health, EnemyDamage), now);
        DamageAdds(health, EnemyDamage, EnemyDamage * |rest.explosions|);
        Ram(rest.survivors, [Explosion(e.x, e.y, now)] + rest.explosions, rest.health)
      else
        var rest := RamJet(width, es[1..], jetX, health, now);
        Ram([e] + rest.survivors, rest.explosions, rest.health)
  }

  /** The enemy bullets left after hitting the jet, and the health left. */
  datatype Shots = Shots(survivors: seq<EnemyBullet>, health: int)

  /** Without a shield, each enemy bullet overlapping the jet is consumed and
      costs 10 health (floored at 0). */
  function ShotsHitJet(width: Option<nat>, ebs: seq<EnemyBullet>, jetX: real, health: int): (r: Shots)
    requires health >= 0
    ensures |r.survivors| <= |ebs|
    ensures IsSubsequence(r.survivors, ebs)
    ensures forall b :: b in r.survivors <==> b in ebs && !ShotTouchesJet(width, b, jetX)
    ensures r.health == Damage(health, EnemyBulletDamage * (|ebs| - |r.survivors|))
    decreases |ebs|
  {
    if ebs == [] then Shots([], health)
    else
      var b := ebs[0];
      assert forall q :: q in ebs <==> q == b || q in ebs[1..];
      if ShotTouchesJet(width, b, jetX) then
        var rest := ShotsHitJet(width, ebs[1..], jetX, Damage(health, EnemyBulletDamage));
        DamageAdds(health, EnemyBulletDamage, EnemyBulletDamage * (|ebs[1..]| - |rest.survivors|));
        rest
      else
        var rest := ShotsHitJet(width, ebs[1..], jetX, health);
        Shots([b] + rest.survivors, rest.health)
  }

  /** With the shield up, enemies overlapping the jet are removed and nothing else happens. */
  function DeflectEnemies(width: Option<nat>, es: seq<Enemy>, jetX: real): (r: seq<Enemy>)
    ensures |r| <= |es| && IsSubsequence(r, es)
    ensures forall e :: e in r <==> e in es && !EnemyTouchesJet(width, e, jetX)
    decreases |es|
  {
    if es == [] then []
    else
      var rest := DeflectEnemies(width, es[1..], jetX);
      assert forall q :: q in es <==> q == es[0] || q in es[1..];
      if EnemyTouchesJet(width, es[0], jetX) then rest else [es[0]] + rest
  }

  /** With the shield up, enemy bullets overlapping the jet are removed and nothing else happens. */
  function DeflectShots(width: Option<nat>, ebs: seq<EnemyBullet>, jetX: real): (r: seq<EnemyBullet>)
    ensures |r| <= |ebs| && IsSubsequence(r, ebs)
    ensures forall b :: b in r <==> b in ebs && !ShotTouchesJet(width, b, jetX)
    decreases |ebs|
  {
    if ebs == [] then []
    else
      var rest := DeflectShots(width, ebs[1..], jetX);
      assert forall q :: q in ebs <==> q == ebs[0] || q in ebs[1..];
      if ShotTouchesJet(width, ebs[0], jetX) then rest else [ebs[0]] + rest
  }

  /** The shield removes exactly the enemies that would otherwise have rammed the jet. */
  lemma {:induction false} ShieldRemovesRammers(width: Option<nat>, es: seq<Enemy>, jetX: real, health: int, now: real)
    requires health >= 0
    ensures DeflectEnemies(width, es, jetX) == RamJet(width, es, jetX, health, now).survivors
    decreases |es|
  {
    if es != [] {
      ShieldRemovesRammers(width, es[1..], jetX, Damage(health, EnemyDamage), now);
      ShieldRemovesRammers(width, es[1..], jetX, health, now);
    }
  }

  /** The shield removes exactly the enemy bullets that would otherwise have hit the jet. */
  lemma {:induction false} ShieldRemovesShots(width: Option<nat>, ebs: seq<EnemyBullet>, jetX: real, health: int)
    requires health >= 0
    ensures DeflectShots(width, ebs, jetX) == ShotsHitJet(width, ebs, jetX, health).survivors
    decreases |ebs|
  {
    if ebs != [] {
      ShieldRemovesShots(width, ebs[1..], jetX, Damage(health, EnemyBulletDamage));
      ShieldRemovesShots(width, ebs[1..], jetX, health);
    }
  }

  /** The power-ups the jet at `jetX` does not touch. */
  function Untouched(width: Option<nat>, jetX: real): (r: PowerUp -> bool)
  {
    p => !PowerUpTouchesJet(width, p, jetX)
  }

  /** The enemies clear of the jet at `jetX`. */
  function ClearOfJet(width: Option<nat>, jetX: real): (r: Enemy -> bool)
  {
    e => !EnemyTouchesJet(width, e, jetX)
  }

  /** The enemy bullets that miss the jet at `jetX`. */
  function Missing(width: Option<nat>, jetX: real): (r: EnemyBullet -> bool)
  {
    b => !ShotTouchesJet(width, b, jetX)
  }

  /** Pickup keeps the untouched power-ups with their multiplicity and order. */
  lemma {:induction false} PickUpIsFilter(width: Option<nat>, ps: seq<PowerUp>, jetX: real)
    ensures PickUp(width, ps, jetX).remaining == Filter(ps, Untouched(width, jetX))
    decreases |ps|
  {
    if ps != [] {
      PickUpIsFilter(width, ps[1..], jetX);
    }
  }

  /** The shield keeps the enemies clear of the jet with their multiplicity and order. */
  lemma {:induction false} DeflectEnemiesIsFilter(width: Option<nat>, es: seq<Enemy>, jetX: real)
    ensures DeflectEnemies(width, es, jetX) == Filter(es, ClearOfJet(width, jetX))
    decreases |es|
  {
    if es != [] {
      DeflectEnemiesIsFilter(width, es[1..], jetX);
    }
  }

  /** The shield keeps the enemy bullets that miss the jet with their multiplicity and order. */
  lemma {:induction false} DeflectShotsIsFilter(width: Option<nat>, ebs: seq<EnemyBullet>, jetX: real)
    ensures DeflectShots(width, ebs, jetX) == Filter(ebs, Missing(width, jetX))
    decreases |ebs|
  {
    if ebs != [] {
      DeflectShotsIsFilter(width, ebs[1..], jetX);
    }
  }

  /** Ramming keeps the enemies clear of the jet with their multiplicity and order. */
  lemma RamJetIsFilter(width: Option<nat>, es: seq<Enemy>, jetX: real, health: int, now: real)
    requires health >= 0
    ensures RamJet(width, es, jetX, health, now).survivors == Filter(es, ClearOfJet(width, jetX))
  {
    ShieldRemovesRammers(width, es, jetX, health, now);
    DeflectEnemiesIsFilter(width, es, jetX);
  }

  /** The test of an enemy that rams the jet. */
  function TouchingJet(width: Option<nat>, jetX: real): (r: Enemy -> bool)
  {
    e => EnemyTouchesJet(width, e, jetX)
  }

  /** The explosion an enemy leaves at its position at time `now`. */
  function BlastAt(now: real): (r: Enemy -> Explosion)
  {
    (e: Enemy) => Explosion(e.x, e.y, now)
  }

  /** Ramming leaves one explosion per ramming enemy, at its position, in the
      enemies' order. */
  lemma {:induction false} RamJetExplosions(width: Option<nat>, es: seq<Enemy>, jetX: real, health: int, now: real)
    requires health >= 0
    ensures RamJet(width, es, jetX, health, now).explosions == Map(Filter(es, TouchingJet(width, jetX)), BlastAt(now))
    decreases |es|
  {
    if es != [] {
      var e := es[0];
      if EnemyTouchesJet(width, e, jetX) {
        RamJetExplosions(width, es[1..], jetX, Damage(health, EnemyDamage), now);
        MapCons(e, Filter(es[1..], TouchingJet(width, jetX)), BlastAt(now));
      } else {
        RamJetExplosions(width, es[1..], jetX, health, now);
      }
    }
  }

  /** Enemy fire keeps the bullets that miss the jet with their multiplicity and order. */
  lemma ShotsHitJetIsFilter(width: Option<nat>, ebs: seq<EnemyBullet>, jetX: real, health: int)
    requires health >= 0
    ensures ShotsHitJet(width, ebs, jetX, health).survivors == Filter(ebs, Missing(width, jetX))
  {
    ShieldRemovesShots(width, ebs, jetX, health);
    DeflectShotsIsFilter(width, ebs, jetX);
  }
}
