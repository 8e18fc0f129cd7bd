/**
 * Collision resolution (Game.check_collisions), as a function of the enemy
 * snapshot, the live lists and the player's position.
 *
 * For each enemy of a snapshot of the enemy list, in order:
 *  - if it is within CONTACT_RANGE of the player, the player loses DAMAGE
 *    health and the enemy is removed from the live list;
 *  - then, whether or not that happened, the first bullet of a fresh snapshot
 *    of the bullet list within HIT_RANGE of the enemy removes the enemy and
 *    itself.
 * An enemy that is removed twice makes `list.remove` raise ValueError, which
 * ends the pass with the lists as they are at that moment.
 */
module Collisions {
  import opened Geometry
  import opened Entities
  import opened Lists

  /** Health lost per enemy that reaches the player. */
  const DAMAGE: int := 10
  /** Enemy-to-player contact distance: SIZE // 2 + 10. */
  const CONTACT_RANGE: real := (ENEMY_SIZE / 2 + 10) as real
  /** Enemy-to-bullet hit distance: SIZE // 2 + 3. */
  const HIT_RANGE: real := (ENEMY_SIZE / 2 + 3) as real

  /** The enemy at `e` is closer than CONTACT_RANGE to the player at `p`, by hypot. */
  predicate Touches(e: Point, p: Point, m: MathLib)
  {
    m.hypot(e.x - p.x, e.y - p.y) < CONTACT_RANGE
  }

  /** The enemy at `e` is closer than HIT_RANGE to the bullet at `b`, by hypot. */
  predicate Hits(e: Point, b: Point, m: MathLib)
  {
    m.hypot(e.x - b.x, e.y - b.y) < HIT_RANGE
  }

  /** With a lawful hypot, contact is a squared-distance test. */
  lemma TouchesNear(e: Point, p: Point, m: MathLib)
    requires Lawful(m)
    ensures Touches(e, p, m) <==> SqDist(e, p) < Sq(CONTACT_RANGE)
  {
    HypotBelow(m, e.x - p.x, e.y - p.y, CONTACT_RANGE);
  }

  /** With a lawful hypot, a hit is a squared-distance test. */
  lemma HitsNear(e: Point, b: Point, m: MathLib)
    requires Lawful(m)
    ensures Hits(e, b, m) <==> SqDist(e, b) < Sq(HIT_RANGE)
  {
    HypotBelow(m, e.x - b.x, e.y - b.y, HIT_RANGE);
  }

  /**
   * Where every enemy and bullet is while collisions are resolved: nothing
   * moves during the pass, so its outcome is a function of these positions.
   */
  datatype Layout = Layout(enemy: map<Enemy, Point>, bullet: map<Bullet, Point>)

  /** The position of the enemy `e` in the layout `w` (the origin for one it does not place). */
  function EnemyAt(w: Layout, e: Enemy): Point
  {
    if e in w.enemy then w.enemy[e] else Point(0.0, 0.0)
  }

  /** The position of the bullet `b` in the layout `w` (the origin for one it does not place). */
  function BulletAt(w: Layout, b: Bullet): Point
  {
    if b in w.bullet then w.bullet[b] else Point(0.0, 0.0)
  }

  /** The layout of the enemies `es` and bullets `bs` where they are now. */
  ghost function LayoutOf(es: seq<Enemy>, bs: seq<Bullet>): Layout
    reads es, bs
  {
    Layout(map e | e in es :: e.pos, map b | b in bs :: b.pos)
  }

  /** The index of the first bullet of `bs` that hits the enemy at `e`, or |bs| when none does. */
  function FirstHit(e: Point, bs: seq<Bullet>, w: Layout, m: MathLib): (k: nat)
    ensures k <= |bs|
    ensures k < |bs| ==> Hits(e, BulletAt(w, bs[k]), m)
    ensures forall j :: 0 <= j < k ==> !Hits(e, BulletAt(w, bs[j]), m)
  {
    if bs == [] then 0
    else if Hits(e, BulletAt(w, bs[0]), m) then 0
    else 1 + FirstHit(e, bs[1..], w, m)
  }

  /**
   * The state a pass leaves: the live lists, the player's health, the
   * (enemy, bullet) pairs that destroyed each other in order, how many enemies
   * of the snapshot the pass reached, and whether it ended by raising
   * ValueError (in the iteration of the last enemy it reached).
   */
  datatype Resolution = Resolution(
    enemies: seq<Enemy>,
    bullets: seq<Bullet>,
    health: int,
    shots: seq<(Enemy, Bullet)>,
    visited: nat,
    crashed: bool)

  /**
   * The bullet half of one iteration, for the enemy `e`, from the live enemy
   * list `live` and the bullet list `bs`, with the player's health already at
   * `health`: the first bullet of `bs` that hits the enemy removes the enemy
   * and itself, and removing an enemy that is gone raises.
   */
  function Shoot(e: Enemy, live: seq<Enemy>, bs: seq<Bullet>, health: int, w: Layout, m: MathLib): (r: Resolution)
    ensures r.visited == 1 && r.health == health
    ensures r.crashed <==> FirstHit(EnemyAt(w, e), bs, w, m) < |bs| && e !in live
    ensures |r.enemies| <= |live| && |r.bullets| <= |bs|
    ensures forall b :: b in r.bullets ==> b in bs
    ensures forall x :: x in r.enemies ==> x in live
  {
    var k := FirstHit(EnemyAt(w, e), bs, w, m);
    if k == |bs| then Resolution(live, bs, health, [], 1, false)
    else if e !in live then Resolution(live, bs, health, [], 1, true)
    else Resolution(Remove(live, e), Remove(bs, bs[k]), health, [(e, bs[k])], 1, false)
  }

  /**
   * One iteration of the pass, for the enemy `e`, from the live enemy list
   * `live`, the bullet list `bs` and the player's `health`, with the player at
   * `p`: the contact test, then the bullet half. Its `shots` hold the one pair
   * destroyed, if any.
   */
  function Step(e: Enemy, live: seq<Enemy>, bs: seq<Bullet>, p: Point, health: int, w: Layout, m: MathLib): (r: Resolution)
    ensures r.visited == 1
    ensures r.health == if Touches(EnemyAt(w, e), p, m) then health - DAMAGE else health
    ensures |r.enemies| <= |live| && |r.bullets| <= |bs|
    ensures forall b :: b in r.bullets ==> b in bs
    ensures forall x :: x in r.enemies ==> x in live
  {
    if !Touches(EnemyAt(w, e), p, m) then Shoot(e, live, bs, health, w, m)
    else if e !in live then Resolution(live, bs, health - DAMAGE, [], 1, true)
    else Shoot(e, Remove(live, e), bs, health - DAMAGE, w, m)
  }

  /**
   * The pass over the snapshot `es`, starting from the live enemy list `live`,
   * the bullet list `bs` and the player's `health`, with the player at `p`.
   */
  function Resolve(es: seq<Enemy>, live: seq<Enemy>, bs: seq<Bullet>, p: Point, health: int, w: Layout, m: MathLib): (r: Resolution)
    ensures r.visited <= |es|
    ensures r.crashed ==> 0 < r.visited
    ensures !r.crashed ==> r.visited == |es|
    ensures r.health <= health
    ensures |r.enemies| <= |live| && |r.bullets| <= |bs|
    ensures forall b :: b in r.bullets ==> b in bs
    ensures forall e :: e in r.enemies ==> e in live
    decreases |es|
  {
    if es == [] then Resolution(live, bs, health, [], 0, false)
    else
      var s := Step(es[0], live, bs, p, health, w, m);
      if s.crashed then s
      else
        assert forall x :: x in es[1..] ==> x in es;
        var r := Resolve(es[1..], s.enemies, s.bullets, p, s.health, w, m);
        r.(shots := s.shots + r.shots, visited := 1 + r.visited)
  }

  /** `r` and `q` leave the same lists and health, and both raise or neither does. */
  predicate SameEnd(r: Resolution, q: Resolution)
  {
    r.enemies == q.enemies && r.bullets == q.bullets && r.health == q.health && r.crashed == q.crashed
  }

  /**
   * The inner loop of Game.check_collisions: the first bullet of `bs` that
   * hits the enemy at `e`, with the bullets where the layout `w` puts them.
   */
  method FindHit(e: Point, bs: seq<Bullet>, ghost w: Layout, m: MathLib) returns (j: nat)
    requires forall b :: b in bs ==> BulletAt(w, b) == b.pos
    ensures j == FirstHit(e, bs, w, m)
  {
    j := 0;
    while j < |bs| && !Hits(e, bs[j].pos, m)
      invariant j <= |bs|
      invariant forall t :: 0 <= t < j ==> !Hits(e, BulletAt(w, bs[t]), m)
    {
      j := j + 1;
    }
  }

  /**
   * One iteration of Game.check_collisions, for the enemy `e`: the lists and
   * health it leaves, and whether it raised, are those of Step.
   */
  method CollideOne(e: Enemy, live: seq<Enemy>, bs: seq<Bullet>, p: Point, health: int, ghost w: Layout, m: MathLib)
    returns (enemies: seq<Enemy>, bullets: seq<Bullet>, hp: int, outcome: Outcome)
    requires EnemyAt(w, e) == e.pos && forall b :: b in bs ==> BulletAt(w, b) == b.pos
    ensures var s := Step(e, live, bs, p, health, w, m);
      && enemies == s.enemies && bullets == s.bullets && hp == s.health
      && outcome == if s.crashed then Raised(ValueError) else Ok
  {
    enemies, bullets, hp := live, bs, health;
    if Touches(e.pos, p, m) {
      hp := hp - DAMAGE;
      if e !in enemies {
        return enemies, bullets, hp, Raised(ValueError);
      }
      enemies := Remove(enemies, e);
    }
    var j := FindHit(e.pos, bullets, w, m);
    if j < |bullets| {
      if e !in enemies {
        return enemies, bullets, hp, Raised(ValueError);
      }
      enemies := Remove(enemies, e);
      bullets := Remove(bullets, bullets[j]);
    }
    outcome := Ok;
  }

  /**
   * Game.check_collisions on the snapshot `es`, the live enemy list `live`,
   * the bullet list `bs` and the player's `health`, with the player at `p` and
   * everyone where the layout `w` puts them: the lists and health it leaves,
   * and whether it raised ValueError, are those of the pass Resolve.
   */
  method Collide(es: seq<Enemy>, live: seq<Enemy>, bs: seq<Bullet>, p: Point, health: int, ghost w: Layout, m: MathLib)
    returns (enemies: seq<Enemy>, bullets: seq<Bullet>, hp: int, outcome: Outcome)
    requires forall x :: x in es ==> EnemyAt(w, x) == x.pos
    requires forall b :: b in bs ==> BulletAt(w, b) == b.pos
    ensures var r := Resolve(es, live, bs, p, health, w, m);
      && enemies == r.enemies && bullets == r.bullets && hp == r.health
      && outcome == if r.crashed then Raised(ValueError) else Ok
  {
    ghost var goal := Resolve(es, live, bs, p, health, w, m);
    enemies, bullets, hp := live, bs, health;
    var i := 0;
    while i < |es|
      invariant i <= |es| && forall b :: b in bullets ==> b in bs
      invariant SameEnd(Resolve(es[i..], enemies, bullets, p, hp, w, m), goal)
    {
      ghost var s := Step(es[i], enemies, bullets, p, hp, w, m);
      ResolveFirst(es[i..], enemies, bullets, p, hp, w, m, s);
      assert es[i..][1..] == es[i + 1..];
      enemies, bullets, hp, outcome := CollideOne(es[i], enemies, bullets, p, hp, w, m);
      if outcome.Raised? {
        return;
      }
      i := i + 1;
    }
    assert es[i..] == [];
    outcome := Ok;
  }

  /** The pass is its first iteration, then, unless that raised, the pass over the rest. */
  lemma ResolveFirst(es: seq<Enemy>, live: seq<Enemy>, bs: seq<Bullet>, p: Point, health: int, w: Layout, m: MathLib, s: Resolution)
    requires es != [] && s == Step(es[0], live, bs, p, health, w, m)
    ensures SameEnd(Resolve(es, live, bs, p, health, w, m), if s.crashed then s else Resolve(es[1..], s.enemies, s.bullets, p, s.health, w, m))
  {
  }

  /** The enemies of `es` that are in contact with the player at `p`, in order. */
  function Touched(es: seq<Enemy>, p: Point, w: Layout, m: MathLib): seq<Enemy>
  {
    if es == [] then []
    else (if Touches(EnemyAt(w, es[0]), p, m) then [es[0]] else []) + Touched(es[1..], p, w, m)
  }

  /** The enemies of a list of shots. */
  function ShotEnemies(shots: seq<(Enemy, Bullet)>): seq<Enemy>
  {
    seq(|shots|, i requires 0 <= i < |shots| => shots[i].0)
  }

  /** The bullets of a list of shots. */
  function ShotBullets(shots: seq<(Enemy, Bullet)>): seq<Bullet>
  {
    seq(|shots|, i requires 0 <= i < |shots| => shots[i].1)
  }

  /** Shots lists split like their concatenations. */
  lemma ShotsAppend(a: seq<(Enemy, Bullet)>, b: seq<(Enemy, Bullet)>)
    ensures ShotEnemies(a + b) == ShotEnemies(a) + ShotEnemies(b)
    ensures ShotBullets(a + b) == ShotBullets(a) + ShotBullets(b)
  {
  }

  /**
   * The bullet half's shot: at most one, pairing the enemy with a bullet of
   * the list that hits it; the bullets it removes are exactly the shot's
   * bullet, and when it does not raise, the enemies it removes are exactly the
   * shot's enemy.
   */
  lemma ShootAccounting(e: Enemy, live: seq<Enemy>, bs: seq<Bullet>, health: int, w: Layout, m: MathLib, s: Resolution)
    requires s == Shoot(e, live, bs, health, w, m)
    ensures |s.shots| <= 1
    ensures forall i :: 0 <= i < |s.shots| ==> s.shots[i].0 == e && s.shots[i].1 in bs && Hits(EnemyAt(w, e), BulletAt(w, s.shots[i].1), m)
    ensures multiset(bs) == multiset(s.bullets) + multiset(ShotBullets(s.shots))
    ensures !s.crashed ==> multiset(live) == multiset(s.enemies) + multiset(ShotEnemies(s.shots))
  {
    var k := FirstHit(EnemyAt(w, e), bs, w, m);
    if k == |bs| || e !in live {
      assert s.shots == [] && s.bullets == bs && s.enemies == live;
      assert ShotBullets([]) == [] && ShotEnemies([]) == [];
    } else {
      var b := bs[k];
      assert s == Resolution(Remove(live, e), Remove(bs, b), health, [(e, b)], 1, false);
      assert ShotBullets([(e, b)]) == [b] && ShotEnemies([(e, b)]) == [e];
      RemoveCount(live, e);
      RemoveCount(bs, b);
    }
  }

  /**
   * One iteration: its shot is the bullet half's; when it does not raise, it
   * removes the enemy from the live list once for its contact with the player
   * and once for its shot.
   */
  lemma StepAccounting(e: Enemy, live: seq<Enemy>, bs: seq<Bullet>, p: Point, health: int, w: Layout, m: MathLib, s: Resolution)
    requires s == Step(e, live, bs, p, health, w, m)
    ensures |s.shots| <= 1
    ensures forall i :: 0 <= i < |s.shots| ==> s.shots[i].0 == e && s.shots[i].1 in bs && Hits(EnemyAt(w, e), BulletAt(w, s.shots[i].1), m)
    ensures multiset(bs) == multiset(s.bullets) + multiset(ShotBullets(s.shots))
    ensures !s.crashed ==>
      multiset(live) == multiset(s.enemies) + multiset(if Touches(EnemyAt(w, e), p, m) then [e] else []) + multiset(ShotEnemies(s.shots))
  {
    if !Touches(EnemyAt(w, e), p, m) {
      ShootAccounting(e, live, bs, health, w, m, s);
    } else if e in live {
      RemoveCount(live, e);
      ShootAccounting(e, Remove(live, e), bs, health - DAMAGE, w, m, s);
    } else {
      assert s.crashed && s.shots == [] && s.bullets == bs;
      assert ShotBullets(s.shots) == [];
    }
  }

  /** One iteration removes no live enemy other than its own. */
  lemma StepKeepsOthers(e: Enemy, live: seq<Enemy>, bs: seq<Bullet>, p: Point, health: int, w: Layout, m: MathLib, s: Resolution)
    requires s == Step(e, live, bs, p, health, w, m)
    ensures !s.crashed ==> forall x :: x in live && x != e ==> x in s.enemies
  {
    StepAccounting(e, live, bs, p, health, w, m, s);
    if !s.crashed {
      forall x | x in live && x != e ensures x in s.enemies {
        assert multiset(live)[x] > 0;
        assert x !in ShotEnemies(s.shots);
      }
    }
  }

  /**
   * Health drops by DAMAGE for every enemy the pass reached that is in
   * contact with the player, including the one whose iteration raised.
   */
  lemma {:induction false} ResolveHealth(es: seq<Enemy>, live: seq<Enemy>, bs: seq<Bullet>, p: Point, health: int, w: Layout, m: MathLib)
    ensures var r := Resolve(es, live, bs, p, health, w, m);
      r.health == health - DAMAGE * |Touched(es[..r.visited], p, w, m)|
  {
    if es != [] {
      var s := Step(es[0], live, bs, p, health, w, m);
      var r := Resolve(es, live, bs, p, health, w, m);
      assert es[..r.visited][0] == es[0];
      if s.crashed {
        assert es[..1][1..] == [];
      } else {
        var t := Resolve(es[1..], s.enemies, s.bullets, p, s.health, w, m);
        ResolveHealth(es[1..], s.enemies, s.bullets, p, s.health, w, m);
        assert es[..r.visited][1..] == es[1..][..t.visited];
      }
    }
  }

  /**
   * Every bullet the pass removes is paired with the enemy it destroyed: the
   * bullets before are the bullets after plus the shot bullets.
   */
  lemma {:induction false} ResolveBullets(es: seq<Enemy>, live: seq<Enemy>, bs: seq<Bullet>, p: Point, health: int, w: Layout, m: MathLib)
    ensures var r := Resolve(es, live, bs, p, health, w, m);
      multiset(bs) == multiset(r.bullets) + multiset(ShotBullets(r.shots))
  {
    if es != [] {
      var s := Step(es[0], live, bs, p, health, w, m);
      StepAccounting(es[0], live, bs, p, health, w, m, s);
      if !s.crashed {
        var r := Resolve(es[1..], s.enemies, s.bullets, p, s.health, w, m);
        ResolveBullets(es[1..], s.enemies, s.bullets, p, s.health, w, m);
        ShotsAppend(s.shots, r.shots);
      }
    }
  }

  /**
   * In a pass that does not raise, every enemy removed was either in contact
   * with the player or shot: the live enemies before are the live enemies
   * after, plus the enemies in contact, plus the shot enemies.
   */
  lemma {:induction false} ResolveEnemies(es: seq<Enemy>, live: seq<Enemy>, bs: seq<Bullet>, p: Point, health: int, w: Layout, m: MathLib, r: Resolution)
    requires r == Resolve(es, live, bs, p, health, w, m)
    ensures !r.crashed ==> multiset(live) == multiset(r.enemies) + multiset(Touched(es, p, w, m)) + multiset(ShotEnemies(r.shots))
  {
    if es != [] && !r.crashed {
      var e := es[0];
      var s := Step(e, live, bs, p, health, w, m);
      StepAccounting(e, live, bs, p, health, w, m, s);
      if !s.crashed {
        var t := Resolve(es[1..], s.enemies, s.bullets, p, s.health, w, m);
        ResolveEnemies(es[1..], s.enemies, s.bullets, p, s.health, w, m, t);
        ShotsAppend(s.shots, t.shots);
        var c := if Touches(EnemyAt(w, e), p, m) then [e] else [];
        assert Touched(es, p, w, m) == c + Touched(es[1..], p, w, m);
        assert r.enemies == t.enemies && r.shots == s.shots + t.shots;
        calc {
          multiset(live);
          multiset(s.enemies) + multiset(c) + multiset(ShotEnemies(s.shots));
          multiset(t.enemies) + multiset(Touched(es[1..], p, w, m)) + multiset(ShotEnemies(t.shots))
            + multiset(c) + multiset(ShotEnemies(s.shots));
          multiset(r.enemies) + multiset(Touched(es, p, w, m)) + multiset(ShotEnemies(r.shots));
        }
      }
    }
  }

  /** Every shot pairs an enemy of the snapshot with a bullet of the list that hits it. */
  lemma {:induction false} ResolveShots(es: seq<Enemy>, live: seq<Enemy>, bs: seq<Bullet>, p: Point, health: int, w: Layout, m: MathLib, r: Resolution)
    requires r == Resolve(es, live, bs, p, health, w, m)
    ensures forall i :: 0 <= i < |r.shots| ==> r.shots[i].0 in es && r.shots[i].1 in bs && Hits(EnemyAt(w, r.shots[i].0), BulletAt(w, r.shots[i].1), m)
  {
    if es != [] {
      var s := Step(es[0], live, bs, p, health, w, m);
      if !s.crashed {
        var t := Resolve(es[1..], s.enemies, s.bullets, p, s.health, w, m);
        ResolveShots(es[1..], s.enemies, s.bullets, p, s.health, w, m, t);
        StepAccounting(es[0], live, bs, p, health, w, m, s);
        ShotsJoin(s.shots, t.shots, es, bs, s.bullets, w, m);
      }
    }
  }

  /** The shots of a first iteration followed by the shots of the rest of the pass. */
  lemma ShotsJoin(a: seq<(Enemy, Bullet)>, b: seq<(Enemy, Bullet)>, es: seq<Enemy>, bs: seq<Bullet>, bs': seq<Bullet>, w: Layout, m: MathLib)
    requires es != [] && forall x :: x in bs' ==> x in bs
    requires forall i :: 0 <= i < |a| ==> a[i].0 == es[0] && a[i].1 in bs && Hits(EnemyAt(w, a[i].0), BulletAt(w, a[i].1), m)
    requires forall i :: 0 <= i < |b| ==> b[i].0 in es[1..] && b[i].1 in bs' && Hits(EnemyAt(w, b[i].0), BulletAt(w, b[i].1), m)
    ensures forall i :: 0 <= i < |a + b| ==> (a + b)[i].0 in es && (a + b)[i].1 in bs && Hits(EnemyAt(w, (a + b)[i].0), BulletAt(w, (a + b)[i].1), m)
  {
    forall i | 0 <= i < |a + b|
      ensures (a + b)[i].0 in es && (a + b)[i].1 in bs && Hits(EnemyAt(w, (a + b)[i].0), BulletAt(w, (a + b)[i].1), m)
    {
      if i >= |a| {
        assert (a + b)[i] == b[i - |a|];
      }
    }
  }

  /**
   * When the snapshot has no repeats and every enemy of it is live (the case
   * in the game), a pass raises only in the iteration of an enemy that is in
   * contact with the player and hit by one of the bullets: it is removed once
   * for the contact, and the bullet's removal finds it gone, so that bullet is
   * still in the list the pass leaves.
   */
  lemma {:induction false} CrashCause(es: seq<Enemy>, live: seq<Enemy>, bs: seq<Bullet>, p: Point, health: int, w: Layout, m: MathLib, r: Resolution)
    requires Distinct(es) && forall x :: x in es ==> x in live
    requires r == Resolve(es, live, bs, p, health, w, m)
    ensures r.crashed ==> Touches(EnemyAt(w, es[r.visited - 1]), p, m) && exists b :: b in r.bullets && Hits(EnemyAt(w, es[r.visited - 1]), BulletAt(w, b), m)
  {
    if es != [] {
      var e := es[0];
      var s := Step(e, live, bs, p, health, w, m);
      if s.crashed {
        if Touches(EnemyAt(w, e), p, m) {
          var k := FirstHit(EnemyAt(w, e), bs, w, m);
          assert s.bullets == bs && bs[k] in s.bullets && Hits(EnemyAt(w, e), BulletAt(w, bs[k]), m);
        }
      } else {
        var rest := es[1..];
        DistinctTail(es);
        StepKeepsOthers(e, live, bs, p, health, w, m, s);
        assert forall x :: x in rest ==> x in es && x != e;
        var t := Resolve(rest, s.enemies, s.bullets, p, s.health, w, m);
        CrashCause(rest, s.enemies, s.bullets, p, s.health, w, m, t);
        if r.crashed {
          assert es[r.visited - 1] == rest[t.visited - 1];
        }
      }
    }
  }

  /**
   * Conversely, an enemy first in the snapshot that is live, in contact with
   * the player and hit by a bullet makes the pass raise in its iteration, when
   * the live list has no repeats.
   */
  lemma CrashOnContactAndHit(es: seq<Enemy>, live: seq<Enemy>, bs: seq<Bullet>, p: Point, health: int, b: Bullet, w: Layout, m: MathLib)
    requires es != [] && es[0] in live && Distinct(live)
    requires Touches(EnemyAt(w, es[0]), p, m) && b in bs && Hits(EnemyAt(w, es[0]), BulletAt(w, b), m)
    ensures var r := Resolve(es, live, bs, p, health, w, m);
      r.crashed && r.visited == 1 && r.health == health - DAMAGE && r.enemies == Remove(live, es[0]) && r.bullets == bs
  {
    var e := es[0];
    RemoveDistinct(live, e);
    var k := FirstHit(EnemyAt(w, e), bs, w, m);
    var j :| 0 <= j < |bs| && bs[j] == b;
    assert k <= j;
  }

  /**
   * From a bullet list without repeats, no bullet destroys two enemies, and no
   * bullet that destroyed an enemy is still in the list.
   */
  lemma ShotsOnce(es: seq<Enemy>, live: seq<Enemy>, bs: seq<Bullet>, p: Point, health: int, w: Layout, m: MathLib, r: Resolution)
    requires Distinct(bs) && r == Resolve(es, live, bs, p, health, w, m)
    ensures Distinct(ShotBullets(r.shots))
    ensures forall b :: b in ShotBullets(r.shots) ==> b !in r.bullets
  {
    var shot := ShotBullets(r.shots);
    ResolveBullets(es, live, bs, p, health, w, m);
    forall x
      ensures multiset(shot)[x] <= 1
    {
      DistinctCount(bs, x);
    }
    CountDistinct(shot);
    forall b | b in shot
      ensures b !in r.bullets
    {
      DistinctCount(bs, b);
    }
  }

  /** A pass keeps the live lists free of repeats. */
  lemma {:induction false} ResolveDistinct(es: seq<Enemy>, live: seq<Enemy>, bs: seq<Bullet>, p: Point, health: int, w: Layout, m: MathLib)
    requires Distinct(live) && Distinct(bs)
    ensures var r := Resolve(es, live, bs, p, health, w, m);
      Distinct(r.enemies) && Distinct(r.bullets)
  {
    if es != [] {
      var e := es[0];
      var s := Step(e, live, bs, p, health, w, m);
      var live' := if Touches(EnemyAt(w, e), p, m) && e in live then Remove(live, e) else live;
      if live' != live {
        RemoveDistinct(live, e);
      }
      var k := FirstHit(EnemyAt(w, e), bs, w, m);
      if k < |bs| && e in live' {
        RemoveDistinct(live', e);
        RemoveDistinct(bs, bs[k]);
      }
      if !s.crashed {
        ResolveDistinct(es[1..], s.enemies, s.bullets, p, s.health, w, m);
      }
    }
  }
}
