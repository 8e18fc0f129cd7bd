/**
 * The three kinds of entity of the arena shooter: the player's avatar, the
 * enemies and the bullets. Each is an object whose `pos` the game updates in
 * place; lists of them are compared by identity.
 */
module Entities {
  import opened Geometry

  /** Side of an enemy's square (Enemy.SIZE). */
  const ENEMY_SIZE: int := 20
  /** Bullet speed in units per tick (Bullet.SPEED). */
  const BULLET_SPEED: real := 10.0
  /** The player's health at the start of a session. */
  const START_HEALTH: int := 100

  /** A Python exception that ends the session. */
  datatype Fault =
    | ZeroDivisionError  // an enemy exactly on the player has no direction to move in
    | ValueError         // list.remove of an entity that is no longer in the list

  /** How an operation ended: normally, or by raising. */
  datatype Outcome = Ok | Raised(fault: Fault)

  /** The player's avatar. */
  class Player {
    var pos: Point
    var angle: real
    var health: int

    constructor (x: real, y: real)
      ensures pos == Point(x, y) && angle == 0.0 && health == START_HEALTH
    {
      pos := Point(x, y);
      angle := 0.0;
      health := START_HEALTH;
    }

    /** Shifts the position by (dx, dy), with no clamping to the arena. */
    method Move(dx: real, dy: real)
      modifies this
      ensures pos == Point(old(pos.x) + dx, old(pos.y) + dy)
      ensures angle == old(angle) && health == old(health)
    {
      pos := Point(pos.x + dx, pos.y + dy);
    }

    /** Faces the pointer at (x, y): the angle is atan2 of the offset to it. */
    method Rotate(x: real, y: real, m: MathLib)
      modifies this
      ensures angle == m.atan2(y - pos.y, x - pos.x)
      ensures pos == old(pos) && health == old(health)
    {
      angle := m.atan2(y - pos.y, x - pos.x);
    }
  }

  /** An enemy: a square that pursues the player. */
  class Enemy {
    var pos: Point

    constructor (x: real, y: real)
      ensures pos == Point(x, y)
    {
      pos := Point(x, y);
    }

    /**
     * One unit toward `target`: the offset to it divided by its length. When
     * that length is zero (by HypotZero, when the enemy sits exactly on the
     * target) the division raises ZeroDivisionError and the enemy stays put.
     */
    method MoveTowards(target: Point, m: MathLib) returns (outcome: Outcome)
      modifies this
      ensures var dist := m.hypot(target.x - old(pos.x), target.y - old(pos.y));
        && (outcome == Ok || outcome == Raised(ZeroDivisionError))
        && (outcome.Raised? <==> dist == 0.0)
        && (outcome.Ok? ==> pos == Toward(old(pos), target, dist))
        && (outcome.Raised? ==> pos == old(pos))
    {
      var dx, dy := target.x - pos.x, target.y - pos.y;
      var dist := m.hypot(dx, dy);
      if dist == 0.0 {
        return Raised(ZeroDivisionError);
      }
      pos := Point(pos.x + dx / dist, pos.y + dy / dist);
      outcome := Ok;
    }
  }

  /** A bullet: moves by a fixed velocity each tick. */
  class Bullet {
    var pos: Point
    const dx: real
    const dy: real

    /** A bullet at (x, y) flying at BULLET_SPEED in the direction `angle`. */
    constructor (x: real, y: real, angle: real, m: MathLib)
      requires Lawful(m)
      ensures pos == Point(x, y)
      ensures dx == m.cos(angle) * BULLET_SPEED && dy == m.sin(angle) * BULLET_SPEED
      ensures Sq(dx) + Sq(dy) == Sq(BULLET_SPEED)
    {
      pos := Point(x, y);
      dx := m.cos(angle) * BULLET_SPEED;
      dy := m.sin(angle) * BULLET_SPEED;
      new;
      SqProduct(m.cos(angle), BULLET_SPEED);
      SqProduct(m.sin(angle), BULLET_SPEED);
    }

    /** Advances the bullet by its velocity. */
    method Update()
      modifies this
      ensures pos == Point(old(pos.x) + dx, old(pos.y) + dy)
    {
      pos := Point(pos.x + dx, pos.y + dy);
    }
  }
}
