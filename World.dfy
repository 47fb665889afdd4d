/**
 * Values shared by every part of the planets simulation: the settings the
 * engine reads, the random draws a new planet is made from, a value snapshot
 * of one planet, and the facts about square roots the physics relies on.
 */
module World {

  /** The settings the engine reads on every tick (`scripts.js` keeps them in globals). */
  datatype Settings = Settings(
    width: real,                  // Canvas.width
    height: real,                 // Canvas.height
    numberOfPlanets: nat,
    planetMinSize: real,
    planetMaxSize: real,
    planetStartSpeed: real,
    gravitationalConstant: real,
    combinePlanets: bool,
    wrapAttraction: bool,
    constantDistance: bool,
    velocityLimit: real,
    accelerationLimit: real)

  /** The values the page starts with. */
  const Defaults := Settings(800.0, 800.0, 50, 2.0, 25.0, 2.0, 0.1, true, true, false, 10.0, 1.0)

  /**
   * The library draws a new planet is made from: four `Math.random()` values
   * and the cosine and sine of the random direction.
   */
  datatype Draw = Draw(xDraw: real, yDraw: real, radiusDraw: real, speedDraw: real, cos: real, sin: real)

  predicate InUnit(r: real) { 0.0 <= r < 1.0 }

  /** What `Math.random`, `Math.cos` and `Math.sin` guarantee of a draw. */
  predicate DrawOk(d: Draw) {
    InUnit(d.xDraw) && InUnit(d.yDraw) && InUnit(d.radiusDraw) && InUnit(d.speedDraw) &&
    SqNorm(d.cos, d.sin) == 1.0
  }

  /** The state of one planet, as a value. */
  datatype Body = Body(
    x: real, y: real,
    xVelocity: real, yVelocity: real,
    xAcceleration: real, yAcceleration: real,
    radius: real, mass: real, displayRadius: real)

  /** A square-root oracle standing for `Math.sqrt` on non-negative arguments. */
  ghost predicate IsSqrt(sqrt: real -> real) {
    forall m: real :: 0.0 <= m ==> 0.0 <= sqrt(m) && Sq(sqrt(m)) == m
  }

  function Min(a: real, b: real): real { if a <= b then a else b }
  function Max(a: real, b: real): real { if a >= b then a else b }

  /**
   * Products that the proofs reason about go through `Mul`, and squares
   * through `Sq`, so that the solver sees one term for each of them.
   */
  function Mul(a: real, b: real): real { a * b }
  function Sq(a: real): real { Mul(a, a) }

  /** The squared Euclidean length of the vector (dx, dy). */
  function SqNorm(dx: real, dy: real): real { Sq(dx) + Sq(dy) }

  lemma MulPositive(a: real, b: real)
    requires 0.0 < a && 0.0 < b
    ensures 0.0 < Mul(a, b)
  {
  }

  lemma MulNonNegative(a: real, b: real)
    requires 0.0 <= a && 0.0 <= b
    ensures 0.0 <= Mul(a, b)
  {
  }

  lemma SquarePositive(v: real)
    ensures 0.0 <= Sq(v)
    ensures v != 0.0 ==> 0.0 < Sq(v)
  {
    if v > 0.0 {
      MulPositive(v, v);
    } else if v < 0.0 {
      MulPositive(-v, -v);
      assert Mul(-v, -v) == Mul(v, v);
    } else {
      assert Sq(v) == Mul(0.0, 0.0) == 0.0;
    }
  }

  /** Dividing a product by `d` scales its first factor. */
  lemma DivScale(a: real, b: real, d: real)
    requires d != 0.0
    ensures a * b / d == Mul(a / d, b)
  {
    var q := a / d;
    assert q * d == a;
    assert Mul(q, b) * d == a * b;
  }

  /** Scaling a vector by `u` scales its squared length by `u²`. */
  lemma ScaledNorm(u: real, dx: real, dy: real)
    ensures SqNorm(Mul(u, dx), Mul(u, dy)) == Sq(u) * SqNorm(dx, dy)
  {
    SqOfProduct(u, dx);
    SqOfProduct(u, dy);
  }

  /** The square of a product is the product of the squares. */
  lemma SqOfProduct(a: real, b: real)
    ensures Sq(Mul(a, b)) == Mul(Sq(a), Sq(b))
  {
  }

  /** A vector has positive squared length exactly when it is not zero. */
  lemma SqNormPositive(dx: real, dy: real)
    ensures 0.0 <= SqNorm(dx, dy)
    ensures dx != 0.0 || dy != 0.0 ==> 0.0 < SqNorm(dx, dy)
  {
    SquarePositive(dx);
    SquarePositive(dy);
  }

  /** The root the oracle gives of a positive number is positive. */
  lemma SqrtPositive(sqrt: real -> real, m: real)
    requires IsSqrt(sqrt) && 0.0 < m
    ensures 0.0 < sqrt(m) && Sq(sqrt(m)) == m
  {
  }

  /** The oracle is exact on squares. */
  lemma SqrtOfSquare(sqrt: real -> real, v: real)
    requires IsSqrt(sqrt) && 0.0 <= v
    ensures sqrt(Sq(v)) == v
  {
    SquarePositive(v);
    var d := sqrt(Sq(v));
    assert 0.0 <= d && Sq(d) == Sq(v);
    assert Sq(d) - Sq(v) == Mul(d - v, d + v);
    if d > v {
      MulPositive(d - v, d + v);
    } else if d < v {
      MulPositive(v - d, d + v);
    }
  }

  /** The root the oracle gives of `m` exceeds every non-negative number whose square is below `m`. */
  lemma SqrtAbove(sqrt: real -> real, m: real, lo: real)
    requires IsSqrt(sqrt) && 0.0 <= lo && Sq(lo) < m
    ensures lo < sqrt(m)
  {
    var r := sqrt(m);
    assert Sq(lo) - Sq(r) == Mul(lo - r, lo + r);
    MulNonNegativeWhen(lo - r, lo + r);
  }

  lemma MulNonNegativeWhen(a: real, b: real)
    ensures 0.0 <= a && 0.0 <= b ==> 0.0 <= Mul(a, b)
  {
    if 0.0 <= a && 0.0 <= b {
      MulNonNegative(a, b);
    }
  }

  /** A planet's radius is not negative and its mass is the square of it. */
  predicate Proper(b: Body) { 0.0 <= b.radius && b.mass == Sq(b.radius) }

  predicate AllProper(bs: seq<Body>) {
    forall k :: 0 <= k < |bs| ==> Proper(bs[k])
  }

  lemma AllProperSplice(bs: seq<Body>, j: nat)
    requires AllProper(bs) && j < |bs|
    ensures AllProper(bs[..j] + bs[j + 1..])
  {
    var cs := bs[..j] + bs[j + 1..];
    forall k | 0 <= k < |cs|
      ensures Proper(cs[k])
    {
      if k < j {
        assert cs[k] == bs[k];
      } else {
        assert cs[k] == bs[k + 1];
      }
    }
  }

  /** The planet lies on the canvas; `step` keeps a planet exactly on the far edge. */
  predicate InWorld(b: Body, s: Settings) {
    0.0 <= b.x <= s.width && 0.0 <= b.y <= s.height
  }

  predicate AllInWorld(bs: seq<Body>, s: Settings) {
    forall k :: 0 <= k < |bs| ==> InWorld(bs[k], s)
  }

  /** The two bodies agree on everything but the acceleration accumulator. */
  predicate SameButAcceleration(a: Body, b: Body) {
    a.x == b.x && a.y == b.y && a.xVelocity == b.xVelocity && a.yVelocity == b.yVelocity &&
    a.radius == b.radius && a.mass == b.mass && a.displayRadius == b.displayRadius
  }

  /** The conserved quantities a body carries. */
  datatype Quantity = Mass | XMomentum | YMomentum

  function Amount(b: Body, q: Quantity): real
  {
    match q
    case Mass => b.mass
    case XMomentum => Mul(b.mass, b.xVelocity)
    case YMomentum => Mul(b.mass, b.yVelocity)
  }

  /** The total of a quantity over a collection of bodies. */
  function Total(bs: seq<Body>, q: Quantity): real
  {
    if bs == [] then 0.0 else Amount(bs[0], q) + Total(bs[1..], q)
  }

  lemma {:induction false} TotalAppend(a: seq<Body>, b: seq<Body>, q: Quantity)
    ensures Total(a + b, q) == Total(a, q) + Total(b, q)
    decreases |a|
  {
    if a != [] {
      assert (a + b)[0] == a[0] && (a + b)[1..] == a[1..] + b;
      TotalAppend(a[1..], b, q);
    } else {
      assert a + b == b;
    }
  }

  /** Replacing one body changes a total by the difference of the two amounts. */
  lemma {:induction false} TotalUpdate(bs: seq<Body>, k: nat, v: Body, q: Quantity)
    requires k < |bs|
    ensures Total(bs[k := v], q) == Total(bs, q) - Amount(bs[k], q) + Amount(v, q)
    decreases |bs|
  {
    if k > 0 {
      assert bs[k := v][1..] == bs[1..][k - 1 := v];
      TotalUpdate(bs[1..], k - 1, v, q);
    }
  }

  /** Removing one body lowers a total by its amount. */
  lemma TotalRemove(bs: seq<Body>, k: nat, q: Quantity)
    requires k < |bs|
    ensures Total(bs[..k] + bs[k + 1..], q) == Total(bs, q) - Amount(bs[k], q)
  {
    assert bs == bs[..k] + ([bs[k]] + bs[k + 1..]);
    TotalAppend(bs[..k], [bs[k]] + bs[k + 1..], q);
    TotalAppend(bs[..k], bs[k + 1..], q);
    assert ([bs[k]] + bs[k + 1..])[1..] == bs[k + 1..];
  }

  /** Two collections whose amounts agree slot by slot have the same total. */
  lemma {:induction false} TotalPointwise(a: seq<Body>, b: seq<Body>, q: Quantity)
    requires |a| == |b|
    requires forall k :: 0 <= k < |a| ==> Amount(a[k], q) == Amount(b[k], q)
    ensures Total(a, q) == Total(b, q)
    decreases |a|
  {
    if a != [] {
      TotalPointwise(a[1..], b[1..], q);
    }
  }
}
