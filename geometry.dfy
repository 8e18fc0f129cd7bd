/**
 * Plane geometry of the arena, and the floating-point library calls the game
 * makes (math.hypot, math.atan2, math.cos, math.sin).
 *
 * Positions are exact reals. The library functions are not defined here: a
 * `MathLib` value carries them, and `Lawful` states the only facts about them
 * the game relies on.
 */
module Geometry {

  /** A position or an offset in the arena: the two-element `pos` lists of main.py. */
  datatype Point = Point(x: real, y: real)

  /** The identity on reals: `Same(a)` is `a`. */
  function Same(a: real): real
  {
    a
  }

  /**
   * The square of a real: `a` times itself, the second factor written as
   * `Same(a)`. The lemmas below (SqPositive, SqMonotone, SqProduct) state the
   * facts about squares that the distance tests rely on.
   */
  function Sq(a: real): real
  {
    a * Same(a)
  }

  /** The square of the Euclidean distance between two points. */
  function SqDist(p: Point, q: Point): real
  {
    Sq(p.x - q.x) + Sq(p.y - q.y)
  }

  /** The math library as the game uses it. */
  datatype MathLib = MathLib(
    hypot: (real, real) -> real,
    atan2: (real, real) -> real,
    cos: real -> real,
    sin: real -> real)

  /**
   * What the game relies on: hypot(a, b) is the non-negative square root of
   * a*a + b*b, and cos and sin of one angle lie on the unit circle.
   */
  ghost predicate Lawful(m: MathLib)
  {
    && (forall a, b :: 0.0 <= m.hypot(a, b) && Sq(m.hypot(a, b)) == Sq(a) + Sq(b))
    && (forall t :: Sq(m.cos(t)) + Sq(m.sin(t)) == 1.0)
  }

  /** A non-zero real has a positive square. */
  lemma SqPositive(a: real)
    requires a != 0.0
    ensures 0.0 < Sq(a)
  {
    if a < 0.0 {
      assert Sq(a) == (-a) * (-a);
    }
  }

  /** For non-negative reals, squaring is strictly monotone. */
  lemma SqMonotone(a: real, b: real)
    requires 0.0 <= a < b
    ensures Sq(a) < Sq(b)
  {
    ProductPositive(b - a, b + a);
    assert Sq(b) - Sq(a) == (b - a) * (b + a);
  }

  /** The product of two positive reals is positive. */
  lemma ProductPositive(a: real, b: real)
    requires 0.0 < a && 0.0 < b
    ensures 0.0 < a * b
  {
  }

  /** A product with a non-zero factor is zero only when the other factor is. */
  lemma ProductZero(a: real, b: real)
    requires b != 0.0 && a * b == 0.0
    ensures a == 0.0
  {
  }

  /** Squaring distributes over a product. */
  lemma SqProduct(a: real, k: real)
    ensures Sq(a * k) == Sq(a) * Sq(k)
  {
  }

  /** hypot(a, b) is zero exactly when the offset (a, b) it measures is zero. */
  lemma HypotZero(m: MathLib, a: real, b: real)
    requires Lawful(m)
    ensures m.hypot(a, b) == 0.0 <==> a == 0.0 && b == 0.0
  {
    var h := m.hypot(a, b);
    assert 0.0 <= h && Sq(h) == Sq(a) + Sq(b);
    if a != 0.0 {
      SqPositive(a);
    } else if b != 0.0 {
      SqPositive(b);
    }
    if h != 0.0 {
      SqPositive(h);
    }
  }

  /**
   * Comparing hypot with a positive radius is the same as comparing the
   * squared distance with the squared radius: the model states every
   * `math.hypot(...) < r` test of the game in the squared form.
   */
  lemma HypotBelow(m: MathLib, a: real, b: real, r: real)
    requires Lawful(m)
    requires 0.0 < r
    ensures m.hypot(a, b) < r <==> Sq(a) + Sq(b) < Sq(r)
  {
    var h := m.hypot(a, b);
    assert 0.0 <= h && Sq(h) == Sq(a) + Sq(b);
    if h < r {
      SqMonotone(h, r);
    } else if r < h {
      SqMonotone(r, h);
    }
  }

  /**
   * One pursuit step (Enemy.move_towards): from `p`, one unit along the
   * direction to `t`, where `dist` is the length of the offset `t - p`.
   */
  function Toward(p: Point, t: Point, dist: real): Point
    requires dist != 0.0
  {
    Point(p.x + (t.x - p.x) / dist, p.y + (t.y - p.y) / dist)
  }

  /**
   * A pursuit step moves exactly one unit, and the distance to the target
   * becomes |dist - 1|: it shrinks by one unit when the target is at least one
   * unit away, and overshoots otherwise.
   */
  lemma {:induction false} TowardDistance(p: Point, t: Point, dist: real)
    requires 0.0 < dist && Sq(dist) == SqDist(t, p)
    ensures SqDist(Toward(p, t, dist), p) == 1.0
    ensures SqDist(t, Toward(p, t, dist)) == Sq(dist - 1.0)
  {
    var q := Toward(p, t, dist);
    var u, v := q.x - p.x, q.y - p.y;
    assert t.x - p.x == u * dist && t.y - p.y == v * dist;
    SqProduct(u, dist);
    SqProduct(v, dist);
    SqPositive(dist);
    ProductZero(Sq(u) + Sq(v) - 1.0, Sq(dist));
    assert t.x - q.x == u * (dist - 1.0) && t.y - q.y == v * (dist - 1.0);
    SqProduct(u, dist - 1.0);
    SqProduct(v, dist - 1.0);
  }
}
