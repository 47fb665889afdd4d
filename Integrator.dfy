/**
 * The per-tick integrator of one planet (`Planet.prototype.step`): velocity
 * takes the accumulated acceleration and is clamped per axis, the position
 * moves and is wrapped at most once per axis, the drawn radius moves halfway
 * toward the physical radius, and the accumulator is cleared.
 */
module Integrator {
  import opened World

  /** The two sequential clamps of one velocity component. */
  function Clamp(v: real, limit: real): (r: real)
    ensures 0.0 <= limit ==> -limit <= r <= limit
    ensures 0.0 <= limit ==> r == Max(-limit, Min(v, limit))
    ensures 0.0 <= limit && -limit <= v <= limit ==> r == v
  {
    var upper := if v > limit then limit else v;
    if upper < -limit then -limit else upper
  }

  /**
   * One conditional add and one conditional subtract of the extent, as the
   * source wraps a coordinate. A coordinate exactly on the far edge is kept.
   */
  function WrapOnce(p: real, extent: real): (r: real)
    ensures r == p || r == p + extent || r == p - extent
    ensures 0.0 <= p <= extent ==> r == p
    ensures 0.0 < extent && -extent <= p <= 2.0 * extent ==> 0.0 <= r <= extent
  {
    var low := if p < 0.0 then p + extent else p;
    if low > extent then low - extent else low
  }

  /** The state of a planet after `step`. */
  function Advance(b: Body, s: Settings): (r: Body)
    ensures r.radius == b.radius && r.mass == b.mass
    ensures r.xAcceleration == 0.0 && r.yAcceleration == 0.0
    ensures 0.0 <= s.velocityLimit ==>
      -s.velocityLimit <= r.xVelocity <= s.velocityLimit &&
      -s.velocityLimit <= r.yVelocity <= s.velocityLimit
    ensures -s.velocityLimit <= b.xVelocity + b.xAcceleration <= s.velocityLimit ==>
      r.xVelocity == b.xVelocity + b.xAcceleration
    ensures -s.velocityLimit <= b.yVelocity + b.yAcceleration <= s.velocityLimit ==>
      r.yVelocity == b.yVelocity + b.yAcceleration
    // the move is by the new velocity, up to one width or height
    ensures r.x - (b.x + r.xVelocity) in {0.0, s.width, -s.width}
    ensures r.y - (b.y + r.yVelocity) in {0.0, s.height, -s.height}
    ensures InWorld(b, s) && 0.0 <= s.velocityLimit <= s.width && s.velocityLimit <= s.height ==>
      InWorld(r, s)
    // the drawn radius halves its gap to the radius and never passes it
    ensures r.displayRadius - b.radius == (b.displayRadius - b.radius) / 2.0
    ensures Min(b.displayRadius, b.radius) <= r.displayRadius <= Max(b.displayRadius, b.radius)
  {
    var xVelocity := Clamp(b.xVelocity + b.xAcceleration, s.velocityLimit);
    var yVelocity := Clamp(b.yVelocity + b.yAcceleration, s.velocityLimit);
    Body(WrapOnce(b.x + xVelocity, s.width), WrapOnce(b.y + yVelocity, s.height),
         xVelocity, yVelocity,
         0.0, 0.0,
         b.radius, b.mass,
         b.displayRadius + (b.radius - b.displayRadius) / 2.0)
  }

  /** `Advance` component by component, for callers that compute the components one at a time. */
  lemma AdvanceComponents(b: Body, s: Settings, xVelocity: real, yVelocity: real)
    requires xVelocity == Clamp(b.xVelocity + b.xAcceleration, s.velocityLimit)
    requires yVelocity == Clamp(b.yVelocity + b.yAcceleration, s.velocityLimit)
    ensures Advance(b, s) ==
      Body(WrapOnce(b.x + xVelocity, s.width), WrapOnce(b.y + yVelocity, s.height),
           xVelocity, yVelocity, 0.0, 0.0, b.radius, b.mass,
           b.displayRadius + (b.radius - b.displayRadius) / 2.0)
  {
  }

  /** The integrate pass of a tick: `step` on every planet of the collection. */
  function AdvanceAll(bs: seq<Body>, s: Settings): (r: seq<Body>)
    ensures |r| == |bs|
    ensures forall k :: 0 <= k < |bs| ==> r[k] == Advance(bs[k], s)
    ensures Total(r, Mass) == Total(bs, Mass)
    ensures AllProper(bs) ==> AllProper(r)
    ensures AllInWorld(bs, s) && 0.0 <= s.velocityLimit <= s.width && s.velocityLimit <= s.height ==>
      AllInWorld(r, s)
  {
    var r := seq(|bs|, k requires 0 <= k < |bs| => Advance(bs[k], s));
    TotalPointwise(r, bs, Mass);
    r
  }

  function Halve(gap: real, n: nat): real
  {
    if n == 0 then gap else Halve(gap, n - 1) / 2.0
  }

  /** `n` ticks of the integrator. */
  function AdvanceTimes(b: Body, s: Settings, n: nat): Body
  {
    if n == 0 then b else Advance(AdvanceTimes(b, s, n - 1), s)
  }

  /**
   * The drawn radius approaches the radius geometrically: after `n` ticks its
   * gap to the radius is the first gap halved `n` times, with the same sign.
   */
  lemma {:induction false} DisplayRadiusApproaches(b: Body, s: Settings, n: nat)
    ensures AdvanceTimes(b, s, n).radius == b.radius
    ensures AdvanceTimes(b, s, n).displayRadius - b.radius == Halve(b.displayRadius - b.radius, n)
    ensures b.displayRadius <= b.radius ==> AdvanceTimes(b, s, n).displayRadius <= b.radius
    ensures b.displayRadius >= b.radius ==> AdvanceTimes(b, s, n).displayRadius >= b.radius
  {
    if n > 0 {
      DisplayRadiusApproaches(b, s, n - 1);
    }
  }
}
