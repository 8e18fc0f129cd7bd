/**
 * The game object: the player, the live enemy and bullet lists, and one
 * frame of the simulation (movement, spawning, pursuit, bullet flight and
 * culling, collisions), driven by the events and key states of each frame.
 */
module Shooter {
  import opened Geometry
  import opened Lists
  import opened Entities
  import opened Culling
  import opened Collisions

  /** At most this many enemies are alive at once. */
  const MAX_ENEMIES: int := 5
  /** How far a held movement key moves the player per frame. */
  const KEY_STEP: real := 2.0
  /** The mouse button that fires (the left button). */
  const FIRE_BUTTON: int := 1

  /** Which of the movement keys W, S, A, D are held during a frame. */
  datatype Keys = Keys(w: bool, s: bool, a: bool, d: bool)

  /** The window events the game reacts to; every other event is `Other`. */
  datatype Event =
    | Quit
    | MouseMotion(x: int, y: int)
    | MouseButtonDown(button: int)
    | Other

  /**
   * The offset the held keys move the player by in one frame: W up, S down,
   * A left, D right, KEY_STEP each.
   */
  function KeyShift(keys: Keys): (r: Point)
    ensures keys.w == keys.s ==> r.y == 0.0
    ensures keys.a == keys.d ==> r.x == 0.0
    ensures keys.w && !keys.s ==> r.y == -KEY_STEP
    ensures keys.s && !keys.w ==> r.y == KEY_STEP
    ensures keys.a && !keys.d ==> r.x == -KEY_STEP
    ensures keys.d && !keys.a ==> r.x == KEY_STEP
  {
    var up := if keys.w then -KEY_STEP else 0.0;
    var down := if keys.s then KEY_STEP else 0.0;
    var left := if keys.a then -KEY_STEP else 0.0;
    var right := if keys.d then KEY_STEP else 0.0;
    Point(left + right, up + down)
  }

  /**
   * The player's facing angle after the events `evs`, starting from `angle`,
   * with the player at `pos`: every mouse motion turns it toward the pointer.
   */
  function Aim(evs: seq<Event>, pos: Point, angle: real, m: MathLib): real
  {
    if evs == [] then angle
    else
      var e := evs[|evs| - 1];
      if e.MouseMotion? then m.atan2(e.y as real - pos.y, e.x as real - pos.x)
      else Aim(evs[..|evs| - 1], pos, angle, m)
  }

  /**
   * The angles of the bullets fired during the events `evs`, in order: each
   * press of the fire button fires along the angle the player faces then.
   */
  function ShotAngles(evs: seq<Event>, pos: Point, angle: real, m: MathLib): seq<real>
  {
    if evs == [] then []
    else
      var init := evs[..|evs| - 1];
      var rest := ShotAngles(init, pos, angle, m);
      if evs[|evs| - 1] == MouseButtonDown(FIRE_BUTTON) then rest + [Aim(init, pos, angle, m)] else rest
  }

  /** Every press of the fire button fires exactly one bullet. */
  lemma {:induction false} ShotCount(evs: seq<Event>, pos: Point, angle: real, m: MathLib)
    ensures |ShotAngles(evs, pos, angle, m)| == multiset(evs)[MouseButtonDown(FIRE_BUTTON)]
  {
    if evs != [] {
      var init := evs[..|evs| - 1];
      ShotCount(init, pos, angle, m);
      assert evs == init + [evs[|evs| - 1]];
    }
  }

  /** Without a mouse motion the player keeps facing the same way. */
  lemma {:induction false} AimUnmoved(evs: seq<Event>, pos: Point, angle: real, m: MathLib)
    requires forall i :: 0 <= i < |evs| ==> !evs[i].MouseMotion?
    ensures Aim(evs, pos, angle, m) == angle
  {
    if evs != [] {
      AimUnmoved(evs[..|evs| - 1], pos, angle, m);
    }
  }

  /** The player faces the pointer position of the last mouse motion. */
  lemma {:induction false} AimLast(evs: seq<Event>, k: nat, pos: Point, angle: real, m: MathLib)
    requires k < |evs| && evs[k].MouseMotion?
    requires forall i :: k < i < |evs| ==> !evs[i].MouseMotion?
    ensures Aim(evs, pos, angle, m) == m.atan2(evs[k].y as real - pos.y, evs[k].x as real - pos.x)
  {
    if k < |evs| - 1 {
      AimLast(evs[..|evs| - 1], k, pos, angle, m);
    }
  }

  /** The pursuit step from `p` toward `t` divides by zero: hypot of the offset is zero. */
  predicate Blocked(p: Point, t: Point, m: MathLib)
  {
    m.hypot(t.x - p.x, t.y - p.y) == 0.0
  }

  /** `q` is one pursuit step from `p` toward `t`: one unit along the direction to `t`. */
  predicate Stepped(p: Point, q: Point, t: Point, m: MathLib)
  {
    var dist := m.hypot(t.x - p.x, t.y - p.y);
    dist != 0.0 && q == Toward(p, t, dist)
  }

  /**
   * The index of the first position of `ps` whose pursuit step toward `t` is
   * blocked, or |ps| when there is none.
   */
  function FirstBlocked(ps: seq<Point>, t: Point, m: MathLib): (k: nat)
    ensures k <= |ps| && (k < |ps| ==> Blocked(ps[k], t, m))
    ensures forall j :: 0 <= j < k ==> !Blocked(ps[j], t, m)
  {
    if ps == [] then 0
    else if Blocked(ps[0], t, m) then 0
    else 1 + FirstBlocked(ps[1..], t, m)
  }

  /** The positions of the enemies of `es`, in order. */
  ghost function EnemyPositions(es: seq<Enemy>): (ps: seq<Point>)
    reads es
    ensures |ps| == |es| && forall j :: 0 <= j < |es| ==> ps[j] == es[j].pos
  {
    if es == [] then [] else EnemyPositions(es[..|es| - 1]) + [es[|es| - 1].pos]
  }

  /**
   * The positions a frame's pursuit starts from, given the enemies `es` at
   * the start of the frame: theirs, then the spawn point (x, y) when fewer
   * than MAX_ENEMIES are alive.
   */
  ghost function Lineup(es: seq<Enemy>, x: int, y: int): seq<Point>
    reads es
  {
    EnemyPositions(es) + if |es| < MAX_ENEMIES then [Point(x as real, y as real)] else []
  }

  /**
   * The first `i` enemies of `es` have taken one pursuit step toward `t` from
   * the positions `ps`, and the others are still at theirs.
   */
  ghost predicate Pursued(es: seq<Enemy>, ps: seq<Point>, i: nat, t: Point, m: MathLib)
    reads es
  {
    |ps| == |es| && forall j :: 0 <= j < |es| ==> if j < i then Stepped(ps[j], es[j].pos, t, m) else es[j].pos == ps[j]
  }

  /**
   * One turn of the pursuit loop, on the enemy at index i of `es`: it steps
   * toward `t`, or raises ZeroDivisionError without moving when it is on `t`.
   */
  method ChaseOne(es: seq<Enemy>, ghost ps: seq<Point>, i: nat, t: Point, m: MathLib) returns (outcome: Outcome)
    requires Distinct(es) && i < |es| && Pursued(es, ps, i, t, m)
    modifies es[i]
    ensures outcome == Ok || outcome == Raised(ZeroDivisionError)
    ensures outcome.Raised? <==> Blocked(ps[i], t, m)
    ensures Pursued(es, ps, if outcome.Ok? then i + 1 else i, t, m)
  {
    var e := es[i];
    outcome := e.MoveTowards(t, m);
    forall j | 0 <= j < |es|
      ensures if j < (if outcome.Ok? then i + 1 else i) then Stepped(ps[j], es[j].pos, t, m) else es[j].pos == ps[j]
    {
      if j != i {
        assert es[j] != e;
      }
    }
  }

  /** With a lawful hypot, a pursuit step is blocked exactly when the enemy sits on the target. */
  lemma BlockedOnTarget(p: Point, t: Point, m: MathLib)
    requires Lawful(m)
    ensures Blocked(p, t, m) <==> p == t
  {
    HypotZero(m, t.x - p.x, t.y - p.y);
  }

  /** `b` was fired from `p` along `angle`: it starts at `p` with velocity BULLET_SPEED along `angle`. */
  ghost predicate Fired(b: Bullet, p: Point, angle: real, m: MathLib)
    reads b
  {
    b.pos == p && b.dx == m.cos(angle) * BULLET_SPEED && b.dy == m.sin(angle) * BULLET_SPEED
  }

  /**
   * With a lawful hypot, a pursuit step covers exactly one unit, and the
   * distance to the target goes from `dist` to |dist - 1|.
   */
  lemma SteppedDistance(p: Point, q: Point, t: Point, m: MathLib)
    requires Lawful(m) && Stepped(p, q, t, m)
    ensures SqDist(q, p) == 1.0
    ensures SqDist(t, q) == Sq(m.hypot(t.x - p.x, t.y - p.y) - 1.0)
  {
    var dist := m.hypot(t.x - p.x, t.y - p.y);
    TowardDistance(p, t, dist);
  }

  /** Why a session ended, after how many frames. */
  datatype Reason =
    | WindowClosed     // a Quit event arrived
    | PlayerDown       // the player's health reached zero or below
    | Crash(fault: Fault)  // an exception escaped a frame
    | InputExhausted   // the modelled input ran out

  /** The inputs of one frame: its events, its held keys and the spawn draw. */
  datatype Frame = Frame(events: seq<Event>, keys: Keys, spawnX: int, spawnY: int)

  /** Where the held keys of the frames `fs`, taken in order, move a player that starts at `p`. */
  function KeyPath(p: Point, fs: seq<Frame>): Point
  {
    if fs == [] then p
    else
      var q := KeyPath(p, fs[..|fs| - 1]);
      var d := KeyShift(fs[|fs| - 1].keys);
      Point(q.x + d.x, q.y + d.y)
  }

  /** The frames `a` and then `b` move the player as `b` does from where `a` left it. */
  lemma {:induction false} KeyPathJoin(p: Point, a: seq<Frame>, b: seq<Frame>)
    ensures KeyPath(p, a + b) == KeyPath(KeyPath(p, a), b)
  {
    if b == [] {
      assert a + b == a;
    } else {
      assert (a + b)[..|a + b| - 1] == a + b[..|b| - 1];
      KeyPathJoin(p, a, b[..|b| - 1]);
    }
  }

  /** Frames in which no movement key is held leave the player where it was. */
  lemma {:induction false} KeyPathIdle(p: Point, fs: seq<Frame>)
    requires forall k :: 0 <= k < |fs| ==> fs[k].keys == Keys(false, false, false, false)
    ensures KeyPath(p, fs) == p
  {
    if fs != [] {
      KeyPathIdle(p, fs[..|fs| - 1]);
    }
  }

  class Game {
    const width: int
    const height: int
    const player: Player
    var enemies: seq<Enemy>
    var bullets: seq<Bullet>
    /** How many enemy contacts the player has suffered. */
    ghost var contacts: nat

    /**
     * The invariant of a session: the lists hold no object twice, the enemy
     * cap holds, every bullet flies at BULLET_SPEED and the player has lost
     * DAMAGE health per contact.
     */
    ghost predicate Valid()
      reads this, player
    {
      && Distinct(enemies) && |enemies| <= MAX_ENEMIES
      && Distinct(bullets)
      && (forall b :: b in bullets ==> Sq(b.dx) + Sq(b.dy) == Sq(BULLET_SPEED))
      && player.health == START_HEALTH - DAMAGE * contacts
    }

    /**
     * The game is as the frame's collision pass left it: the pass ran over
     * the enemies `es`, the bullets of `bs` that survived culling where they
     * now are, and the player's `health` before the pass, and it raised
     * ValueError exactly when `outcome` says so.
     */
    ghost predicate Collided(es: seq<Enemy>, bs: seq<Bullet>, health: int, outcome: Outcome, m: MathLib)
      reads this, player, es, bs, Survivors(bs, width, height)
    {
      var live := Survivors(bs, width, height);
      var r := Resolve(es, es, live, player.pos, health, LayoutOf(es, live), m);
      && enemies == r.enemies && bullets == r.bullets && player.health == r.health
      && outcome == if r.crashed then Raised(ValueError) else Ok
    }

    /** A new session: the player at the centre, facing right, with no enemies or bullets. */
    constructor (width: int, height: int)
      ensures Valid()
      ensures this.width == width && this.height == height
      ensures player.pos == Point((width / 2) as real, (height / 2) as real)
      ensures player.angle == 0.0 && player.health == START_HEALTH
      ensures enemies == [] && bullets == [] && contacts == 0
      ensures fresh(player)
    {
      this.width := width;
      this.height := height;
      player := new Player((width / 2) as real, (height / 2) as real);
      enemies := [];
      bullets := [];
      contacts := 0;
    }

    /** Moves the player by the held keys, W, S, A, D in that order. */
    method MoveByKeys(keys: Keys)
      modifies player
      ensures player.pos == Point(old(player.pos.x) + KeyShift(keys).x, old(player.pos.y) + KeyShift(keys).y)
      ensures player.angle == old(player.angle) && player.health == old(player.health)
    {
      if keys.w {
        player.Move(0.0, -KEY_STEP);
      }
      if keys.s {
        player.Move(0.0, KEY_STEP);
      }
      if keys.a {
        player.Move(-KEY_STEP, 0.0);
      }
      if keys.d {
        player.Move(KEY_STEP, 0.0);
      }
    }

    /**
     * Adds an enemy at (x, y), the spawn point drawn for this frame, unless
     * MAX_ENEMIES are alive already. The draw is randint(0, width) and
     * randint(0, height), whose bounds are both inclusive.
     */
    method SpawnEnemy(x: int, y: int)
      requires Valid() && 0 <= x <= width && 0 <= y <= height
      modifies this
      ensures Valid() && contacts == old(contacts) && bullets == old(bullets)
      ensures |old(enemies)| < MAX_ENEMIES ==>
        && |enemies| == |old(enemies)| + 1 && enemies[..|old(enemies)|] == old(enemies)
        && fresh(enemies[|old(enemies)|]) && enemies[|old(enemies)|].pos == Point(x as real, y as real)
        && 0.0 <= enemies[|old(enemies)|].pos.x <= width as real && 0.0 <= enemies[|old(enemies)|].pos.y <= height as real
      ensures |old(enemies)| >= MAX_ENEMIES ==> enemies == old(enemies)
    {
      if |enemies| < MAX_ENEMIES {
        var e := new Enemy(x as real, y as real);
        AppendDistinct(enemies, e);
        enemies := enemies + [e];
      }
    }

    /** Fires a bullet from the player's position along the player's angle. */
    method Shoot(m: MathLib)
      requires Valid() && Lawful(m)
      modifies this
      ensures Valid() && contacts == old(contacts) && enemies == old(enemies)
      ensures |bullets| == |old(bullets)| + 1 && bullets[..|old(bullets)|] == old(bullets)
      ensures fresh(bullets[|old(bullets)|])
      ensures bullets[|old(bullets)|].pos == player.pos
      ensures bullets[|old(bullets)|].dx == m.cos(player.angle) * BULLET_SPEED
      ensures bullets[|old(bullets)|].dy == m.sin(player.angle) * BULLET_SPEED
    {
      var b := new Bullet(player.pos.x, player.pos.y, player.angle, m);
      AppendDistinct(bullets, b);
      bullets := bullets + [b];
    }

    /**
     * Every enemy, in list order, takes one step toward the player. An enemy
     * sitting exactly on the player raises ZeroDivisionError, which ends the
     * pass: the enemies before it have moved, it and the ones after have not.
     */
    method Pursue(m: MathLib) returns (outcome: Outcome)
      requires Distinct(enemies)
      modifies enemies
      ensures outcome == Ok || outcome == Raised(ZeroDivisionError)
      ensures var ps := old(EnemyPositions(enemies));
        var k := FirstBlocked(ps, player.pos, m);
        && (outcome.Raised? <==> k < |enemies|)
        && Pursued(enemies, ps, k, player.pos, m)
      ensures outcome.Raised? ==> exists e :: e in enemies && Blocked(e.pos, player.pos, m)
    {
      var es, target := enemies, player.pos;
      ghost var ps := EnemyPositions(es);
      ghost var k := FirstBlocked(ps, target, m);
      var i := 0;
      while i < |es|
        invariant enemies == es && player.pos == target
        invariant i <= k && Pursued(es, ps, i, target, m)
      {
        outcome := ChaseOne(es, ps, i, target, m);
        if outcome.Raised? {
          assert es[i] in enemies && Blocked(es[i].pos, player.pos, m);
          return;
        }
        i := i + 1;
      }
      return Ok;
    }

    /**
     * Advances every bullet of a snapshot of the list, in order, and removes
     * from the list each one that has left the arena.
     */
    method CullBullets()
      requires Valid()
      modifies this, bullets
      ensures Valid()
      ensures bullets == Survivors(old(bullets), width, height)
      ensures forall b :: b in old(bullets) ==> b.pos == Moved(old(b.pos), b)
      ensures enemies == old(enemies) && contacts == old(contacts)
    {
      var bs := bullets;
      bullets := Cull(bs, width, height);
      SurvivorsMembers(bs, width, height);
      SurvivorsDistinct(bs, width, height);
    }

    /**
     * Game.check_collisions: the pass Resolve over a snapshot of the enemy
     * list, with everyone where they are now. The player loses DAMAGE health
     * per enemy in contact that the pass reaches, and a second removal of the
     * same enemy raises ValueError.
     */
    method CheckCollisions(m: MathLib) returns (outcome: Outcome)
      requires Valid()
      modifies this, player
      ensures var r := Resolve(old(enemies), old(enemies), old(bullets), old(player.pos), old(player.health),
          old(LayoutOf(enemies, bullets)), m);
        && enemies == r.enemies && bullets == r.bullets && player.health == r.health
        && outcome == if r.crashed then Raised(ValueError) else Ok
      ensures Valid() && contacts >= old(contacts)
      ensures player.pos == old(player.pos) && player.angle == old(player.angle)
      ensures outcome == Raised(ValueError) ==> exists e, b ::
        e in old(enemies) && b in bullets && Touches(e.pos, player.pos, m) && Hits(e.pos, b.pos, m)
    {
      var es, bs, p, hp := enemies, bullets, player.pos, player.health;
      ghost var w := LayoutOf(es, bs);
      ghost var r := Resolve(es, es, bs, p, hp, w, m);
      ResolveHealth(es, es, bs, p, hp, w, m);
      ResolveDistinct(es, es, bs, p, hp, w, m);
      es, bs, hp, outcome := Collide(es, es, bs, p, hp, w, m);
      enemies, bullets := es, bs;
      player.health := hp;
      contacts := contacts + |Touched(old(enemies)[..r.visited], p, w, m)|;
      CrashCause(old(enemies), old(enemies), old(bullets), p, old(player.health), w, m, r);
      if r.crashed {
        var e := old(enemies)[r.visited - 1];
        var b :| b in r.bullets && Hits(EnemyAt(w, e), BulletAt(w, b), m);
        assert EnemyAt(w, e) == e.pos && BulletAt(w, b) == b.pos;
      }
    }

    /**
     * One frame of Game.update: the held keys move the player, an enemy spawns
     * at (x, y) below the cap, every enemy steps toward the player, the
     * bullets fly and the ones off the arena are dropped, and collisions are
     * resolved. An exception raised on the way ends the frame there.
     */
    method Update(keys: Keys, x: int, y: int, m: MathLib) returns (outcome: Outcome)
      requires Valid() && 0 <= x <= width && 0 <= y <= height
      modifies this, player, enemies, bullets
      ensures Valid() && contacts >= old(contacts)
      ensures player.pos == Point(old(player.pos.x) + KeyShift(keys).x, old(player.pos.y) + KeyShift(keys).y)
      ensures player.angle == old(player.angle) && player.health <= old(player.health)
      ensures outcome == Ok || outcome == Raised(ZeroDivisionError) || outcome == Raised(ValueError)
      ensures outcome == Raised(ZeroDivisionError) ==> bullets == old(bullets) && contacts == old(contacts)
      ensures outcome == Raised(ZeroDivisionError) ==>
        && |old(enemies)| <= |enemies| <= |old(enemies)| + 1 && enemies[..|old(enemies)|] == old(enemies)
        && (|enemies| == |old(enemies)| + 1 <==> |old(enemies)| < MAX_ENEMIES)
      ensures outcome == Raised(ZeroDivisionError) ==> forall b :: b in old(bullets) ==> b.pos == old(b.pos)
      ensures outcome != Raised(ZeroDivisionError) ==> forall b :: b in old(bullets) ==> b.pos == Moved(old(b.pos), b)
      ensures outcome == Raised(ZeroDivisionError) ==> exists e :: e in enemies && Blocked(e.pos, player.pos, m)
      ensures var ps := old(Lineup(enemies, x, y));
        outcome == Raised(ZeroDivisionError) <==> FirstBlocked(ps, player.pos, m) < |ps|
      ensures outcome == Raised(ValueError) ==> exists e, b ::
        (e in old(enemies) || fresh(e)) && b in bullets && Touches(e.pos, player.pos, m) && Hits(e.pos, b.pos, m)
      ensures forall b :: b in bullets ==> b in old(bullets)
      ensures forall e :: e in enemies ==> e in old(enemies) || fresh(e)
    {
      ghost var ps, bs := Lineup(enemies, x, y), bullets;
      Prepare(keys, x, y);
      assert EnemyPositions(enemies) == ps;
      assert bullets == bs && forall b :: b in bs ==> b.pos == old(b.pos);
      outcome := Advance(m);
    }

    /**
     * The rest of a frame of Game.update, after the keys and the spawn: every
     * enemy steps toward the player, then the bullets fly and are culled and
     * collisions are resolved, unless the pursuit raised.
     */
    method Advance(m: MathLib) returns (outcome: Outcome)
      requires Valid()
      modifies this, player, enemies, bullets
      ensures Valid() && contacts >= old(contacts)
      ensures player.pos == old(player.pos) && player.angle == old(player.angle) && player.health <= old(player.health)
      ensures outcome == Ok || outcome == Raised(ZeroDivisionError) || outcome == Raised(ValueError)
      ensures var ps := old(EnemyPositions(enemies));
        var k := FirstBlocked(ps, player.pos, m);
        && (outcome == Raised(ZeroDivisionError) <==> k < |ps|)
        && Pursued(old(enemies), ps, k, player.pos, m)
      ensures outcome == Raised(ZeroDivisionError) ==> enemies == old(enemies) && bullets == old(bullets) && contacts == old(contacts)
      ensures outcome == Raised(ZeroDivisionError) ==> forall b :: b in old(bullets) ==> b.pos == old(b.pos)
      ensures outcome != Raised(ZeroDivisionError) ==> forall b :: b in old(bullets) ==> b.pos == Moved(old(b.pos), b)
      ensures outcome == Raised(ZeroDivisionError) ==> exists e :: e in enemies && Blocked(e.pos, player.pos, m)
      ensures outcome != Raised(ZeroDivisionError) ==> Collided(old(enemies), old(bullets), old(player.health), outcome, m)
      ensures outcome == Raised(ValueError) ==> exists e, b ::
        e in old(enemies) && b in bullets && Touches(e.pos, player.pos, m) && Hits(e.pos, b.pos, m)
      ensures forall b :: b in bullets ==> b in old(bullets)
      ensures forall e :: e in enemies ==> e in old(enemies)
    {
      ghost var es, bs := enemies, bullets;
      outcome := Pursue(m);
      assert enemies == es && bullets == bs && forall b :: b in bs ==> b.pos == old(b.pos);
      if outcome.Raised? {
        return;
      }
      outcome := Settle(m);
    }

    /** The start of a frame of Game.update: the held keys move the player, then an enemy spawns at (x, y) below the cap. */
    method Prepare(keys: Keys, x: int, y: int)
      requires Valid() && 0 <= x <= width && 0 <= y <= height
      modifies this, player
      ensures Valid() && contacts == old(contacts) && bullets == old(bullets)
      ensures player.pos == Point(old(player.pos.x) + KeyShift(keys).x, old(player.pos.y) + KeyShift(keys).y)
      ensures player.angle == old(player.angle) && player.health == old(player.health)
      ensures |old(enemies)| <= |enemies| <= |old(enemies)| + 1 && enemies[..|old(enemies)|] == old(enemies)
      ensures |enemies| == |old(enemies)| + 1 <==> |old(enemies)| < MAX_ENEMIES
      ensures forall j :: |old(enemies)| <= j < |enemies| ==> fresh(enemies[j])
      ensures forall j :: |old(enemies)| <= j < |enemies| ==>
        && enemies[j].pos == Point(x as real, y as real)
        && 0.0 <= enemies[j].pos.x <= width as real && 0.0 <= enemies[j].pos.y <= height as real
    {
      MoveByKeys(keys);
      SpawnEnemy(x, y);
    }

    /**
     * The second half of a frame of Game.update, after pursuit: the bullets
     * fly and the ones off the arena are dropped, then collisions are resolved
     * over the enemies and the surviving bullets, where they now are.
     */
    method Settle(m: MathLib) returns (outcome: Outcome)
      requires Valid()
      modifies this, player, bullets
      ensures Valid() && contacts >= old(contacts)
      ensures player.pos == old(player.pos) && player.angle == old(player.angle) && player.health <= old(player.health)
      ensures forall b :: b in old(bullets) ==> b.pos == Moved(old(b.pos), b)
      ensures Collided(old(enemies), old(bullets), old(player.health), outcome, m)
      ensures outcome == Raised(ValueError) ==> exists e, b ::
        e in old(enemies) && b in bullets && Touches(e.pos, player.pos, m) && Hits(e.pos, b.pos, m)
      ensures forall b :: b in bullets ==> b in old(bullets)
      ensures forall e :: e in enemies ==> e in old(enemies)
    {
      var bs := bullets;
      CullBullets();
      SurvivorsMembers(bs, width, height);
      ghost var live := Survivors(bs, width, height);
      ghost var w := LayoutOf(enemies, live);
      outcome := CheckCollisions(m);
      assert Survivors(bs, width, height) == live;
      assert LayoutOf(old(enemies), live) == w;
    }

    /**
     * The event loop of one frame: a Quit event asks to stop (the remaining
     * events are still handled), a mouse motion turns the player toward the
     * pointer and a press of the fire button shoots.
     */
    method HandleEvents(evs: seq<Event>, m: MathLib) returns (quit: bool)
      requires Valid() && Lawful(m)
      modifies this, player
      ensures Valid() && enemies == old(enemies) && contacts == old(contacts)
      ensures quit <==> Quit in evs
      ensures player.pos == old(player.pos) && player.health == old(player.health)
      ensures player.angle == Aim(evs, old(player.pos), old(player.angle), m)
      ensures var shots := ShotAngles(evs, old(player.pos), old(player.angle), m);
        && |bullets| == |old(bullets)| + |shots| && bullets[..|old(bullets)|] == old(bullets)
        && forall j :: 0 <= j < |shots| ==> Fired(bullets[|old(bullets)| + j], old(player.pos), shots[j], m)
      ensures forall j :: |old(bullets)| <= j < |bullets| ==> fresh(bullets[j])
    {
      quit := false;
      ghost var p0, a0, n0 := player.pos, player.angle, |bullets|;
      for i := 0 to |evs|
        invariant Valid() && enemies == old(enemies) && contacts == old(contacts)
        invariant player.pos == p0 && player.health == old(player.health)
        invariant quit <==> Quit in evs[..i]
        invariant player.angle == Aim(evs[..i], p0, a0, m)
        invariant |bullets| == n0 + |ShotAngles(evs[..i], p0, a0, m)| && bullets[..n0] == old(bullets)
        invariant forall j :: n0 <= j < |bullets| ==>
          fresh(bullets[j]) && Fired(bullets[j], p0, ShotAngles(evs[..i], p0, a0, m)[j - n0], m)
      {
        assert evs[..i + 1] == evs[..i] + [evs[i]];
        assert evs[..i + 1][..i] == evs[..i];
        match evs[i]
        case Quit =>
          quit := true;
        case MouseMotion(x, y) =>
          player.Rotate(x as real, y as real, m);
        case MouseButtonDown(button) =>
          if button == FIRE_BUTTON {
            Shoot(m);
          }
        case Other =>
      }
      assert evs[..|evs|] == evs;
    }

    /**
     * One pass of the loop of Game.run: the frame's events, then the update.
     * `running` is whether the loop goes on: no exception escaped, the frame
     * had no Quit event and the player's health is still above zero.
     */
    method Tick(frame: Frame, m: MathLib) returns (outcome: Outcome, running: bool)
      requires Valid() && Lawful(m)
      requires 0 <= frame.spawnX <= width && 0 <= frame.spawnY <= height
      modifies this, player, enemies, bullets
      ensures Valid() && player.health <= old(player.health)
      ensures player.pos == KeyPath(old(player.pos), [frame])
      ensures player.angle == Aim(frame.events, old(player.pos), old(player.angle), m)
      ensures outcome == Ok || outcome == Raised(ZeroDivisionError) || outcome == Raised(ValueError)
      ensures outcome == Raised(ZeroDivisionError) ==> exists e :: e in enemies && Blocked(e.pos, player.pos, m)
      ensures var ps := old(Lineup(enemies, frame.spawnX, frame.spawnY));
        outcome == Raised(ZeroDivisionError) <==> FirstBlocked(ps, player.pos, m) < |ps|
      ensures outcome == Raised(ValueError) ==> exists e, b ::
        && (e in old(enemies) || fresh(e)) && b in bullets
        && Touches(e.pos, player.pos, m) && Hits(e.pos, b.pos, m)
      ensures running <==> outcome.Ok? && Quit !in frame.events && 0 < player.health
      ensures forall j :: 0 <= j < |enemies| ==> enemies[j] in old(enemies) || fresh(enemies[j])
      ensures forall j :: 0 <= j < |bullets| ==> bullets[j] in old(bullets) || fresh(bullets[j])
    {
      var quit := HandleEvents(frame.events, m);
      ghost var drawn := bullets;
      assert forall b :: b in drawn ==> b in old(bullets) || fresh(b) by {
        forall b | b in drawn ensures b in old(bullets) || fresh(b) {
          var j :| 0 <= j < |drawn| && drawn[j] == b;
        }
      }
      outcome := Update(frame.keys, frame.spawnX, frame.spawnY, m);
      assert [frame][..0] == [];
      running := outcome.Ok? && !quit && 0 < player.health;
    }

    /**
     * Game.run on the inputs `frames`: the loop Ticks one frame after another
     * and stops after a frame with a Quit event or at whose end the player's
     * health is zero or below, when an exception escapes a frame, or when the
     * input runs out. `n` is the number of frames run.
     */
    method Run(frames: seq<Frame>, m: MathLib) returns (reason: Reason, n: nat)
      requires Valid() && Lawful(m)
      requires forall k :: 0 <= k < |frames| ==> 0 <= frames[k].spawnX <= width && 0 <= frames[k].spawnY <= height
      modifies this, player, enemies, bullets
      ensures Valid() && player.health <= old(player.health)
      ensures n <= |frames| && (reason != InputExhausted ==> 0 < n)
      ensures player.pos == KeyPath(old(player.pos), frames[..n])
      ensures reason == InputExhausted ==> n == |frames| && (n == 0 || 0 < player.health)
      ensures reason == WindowClosed ==> Quit in frames[n - 1].events
      ensures reason == PlayerDown ==> Quit !in frames[n - 1].events && player.health <= 0
      ensures reason.Crash? ==> reason.fault == ZeroDivisionError || reason.fault == ValueError
      ensures reason == Crash(ZeroDivisionError) ==> exists e :: e in enemies && Blocked(e.pos, player.pos, m)
      ensures reason == Crash(ValueError) ==> exists e, b ::
        && (e in old(enemies) || fresh(e)) && b in bullets
        && Touches(e.pos, player.pos, m) && Hits(e.pos, b.pos, m)
      ensures forall k :: 0 <= k < n - 1 ==> Quit !in frames[k].events
      ensures reason == InputExhausted ==> forall k :: 0 <= k < n ==> Quit !in frames[k].events
    {
      n := 0;
      var running, outcome := true, Ok;
      while running && n < |frames|
        invariant n <= |frames| && Valid() && player.health <= old(player.health)
        invariant player.pos == KeyPath(old(player.pos), frames[..n])
        invariant outcome.Ok? ==> (running <==> 0 < n ==> Quit !in frames[n - 1].events && 0 < player.health)
        invariant !running ==> 0 < n
        invariant outcome == Ok || outcome == Raised(ZeroDivisionError) || outcome == Raised(ValueError)
        invariant outcome.Raised? ==> !running
        invariant outcome == Raised(ZeroDivisionError) ==> exists e :: e in enemies && Blocked(e.pos, player.pos, m)
        invariant outcome == Raised(ValueError) ==> exists e, b ::
          && (e in old(enemies) || fresh(e)) && b in bullets
          && Touches(e.pos, player.pos, m) && Hits(e.pos, b.pos, m)
        invariant forall k :: 0 <= k < n - 1 ==> Quit !in frames[k].events
        invariant forall j :: 0 <= j < |enemies| ==> enemies[j] in old(enemies) || fresh(enemies[j])
        invariant forall j :: 0 <= j < |bullets| ==> bullets[j] in old(bullets) || fresh(bullets[j])
      {
        assert forall k :: 0 <= k < n ==> Quit !in frames[k].events;
        assert frames[..n + 1] == frames[..n] + [frames[n]];
        KeyPathJoin(old(player.pos), frames[..n], [frames[n]]);
        ghost var es := enemies;
        label tick:
        outcome, running := Tick(frames[n], m);
        n := n + 1;
        if outcome == Raised(ValueError) {
          ghost var e: Enemy, b: Bullet :|
            && (e in es || !old@tick(allocated(e))) && b in bullets
            && Touches(e.pos, player.pos, m) && Hits(e.pos, b.pos, m);
          assert e in old(enemies) || fresh(e);
        }
      }
      if outcome.Raised? {
        return Crash(outcome.fault), n;
      }
      reason :=
        if running then InputExhausted
        else if Quit in frames[n - 1].events then WindowClosed
        else PlayerDown;
    }
  }
}
