/**
 * Merging of overlapping planets (`Planet.prototype.combine`) and the merge
 * pass of a tick, which scans the ordered pairs `i < j` and lets planet `i`
 * absorb planet `j` whenever they overlap enough.
 */
module Merging {
  import opened World

  /** The distance between two centres, without wrap-around. */
  function Separation(a: Body, b: Body, sqrt: real -> real): (d: real)
    requires IsSqrt(sqrt)
    ensures 0.0 <= d && Sq(d) == SqNorm(b.x - a.x, b.y - a.y)
  {
    SqNormPositive(b.x - a.x, b.y - a.y);
    sqrt(SqNorm(b.x - a.x, b.y - a.y))
  }

  /** The merge test: the distance plus half the smaller radius is below the larger radius. */
  predicate Overlap(a: Body, b: Body, sqrt: real -> real)
    requires IsSqrt(sqrt)
    ensures Overlap(a, b, sqrt) && 0.0 <= Min(a.radius, b.radius) ==> Separation(a, b, sqrt) < Max(a.radius, b.radius)
    ensures a.radius == b.radius ==> (Overlap(a, b, sqrt) <==> Separation(a, b, sqrt) < a.radius / 2.0)
  {
    Separation(a, b, sqrt) + Min(a.radius, b.radius) / 2.0 < Max(a.radius, b.radius)
  }

  /** Two proper planets that overlap have a positive combined mass. */
  lemma OverlapMassPositive(a: Body, b: Body, sqrt: real -> real)
    requires IsSqrt(sqrt) && Proper(a) && Proper(b) && Overlap(a, b, sqrt)
    ensures 0.0 < a.mass + b.mass
  {
    SquarePositive(a.radius);
    SquarePositive(b.radius);
  }

  /**
   * `combine`: whether `a` absorbs `b`, and `a` afterwards. The merged planet
   * takes the mass-weighted velocity, moves toward `b` by `b`'s share of the
   * mass, keeps the larger drawn radius, adds the masses and takes the root
   * of the sum as its radius. Its accelerations are `a`'s own.
   */
  function Combine(a: Body, b: Body, sqrt: real -> real): (r: (bool, Body))
    requires IsSqrt(sqrt) && Proper(a) && Proper(b)
    ensures r.0 == Overlap(a, b, sqrt)
    ensures !r.0 ==> r.1 == a
    ensures r.0 ==> Proper(r.1) && r.1.mass == a.mass + b.mass
    ensures r.0 ==> r.1.displayRadius == Max(a.displayRadius, b.displayRadius)
    ensures r.1.xAcceleration == a.xAcceleration && r.1.yAcceleration == a.yAcceleration
  {
    if Overlap(a, b, sqrt) then
      OverlapMassPositive(a, b, sqrt);
      var thisProportion := a.mass / (a.mass + b.mass);
      var otherProportion := b.mass / (a.mass + b.mass);
      var mass := a.mass + b.mass;
      (true, a.(xVelocity := Blend(a.xVelocity, thisProportion, b.xVelocity, otherProportion),
                yVelocity := Blend(a.yVelocity, thisProportion, b.yVelocity, otherProportion),
                x := Shift(a.x, b.x, otherProportion),
                y := Shift(a.y, b.y, otherProportion),
                displayRadius := Max(a.displayRadius, b.displayRadius),
                mass := mass,
                radius := sqrt(mass)))
    else
      (false, a)
  }

  /** `va` and `vb` weighted by `pa` and `pb`. */
  function Blend(va: real, pa: real, vb: real, pb: real): (r: real)
    ensures pa + pb == 1.0 && va == vb ==> r == va
    ensures pa == 1.0 && pb == 0.0 ==> r == va
    ensures pa == 0.0 && pb == 1.0 ==> r == vb
  {
    va * pa + vb * pb
  }

  /** The point the fraction `t` of the way from `from` to `to`. */
  function Shift(from: real, to: real, t: real): (r: real)
    ensures t == 0.0 ==> r == from
    ensures t == 1.0 ==> r == to
    ensures from == to ==> r == from
  {
    from + (to - from) * t
  }

  /** A mass-weighted mean of two values, times the total mass, is the sum of the weighted values. */
  lemma WeightedMean(ma: real, mb: real, va: real, vb: real)
    requires ma + mb != 0.0
    ensures Mul(ma + mb, Blend(va, ma / (ma + mb), vb, mb / (ma + mb))) == Mul(ma, va) + Mul(mb, vb)
  {
    var m := ma + mb;
    var p := ma / m;
    var q := mb / m;
    assert p * m == ma;
    assert q * m == mb;
    assert Mul(m, va * p + vb * q) == va * (p * m) + vb * (q * m);
  }

  /** Moving from `xa` toward `xb` by the share `mb` of the mass lands on the barycentre. */
  lemma ShiftIsBarycentre(ma: real, mb: real, xa: real, xb: real)
    requires ma + mb != 0.0
    ensures Mul(ma + mb, Shift(xa, xb, mb / (ma + mb))) == Mul(ma, xa) + Mul(mb, xb)
  {
    var m := ma + mb;
    var q := mb / m;
    assert q * m == mb;
    assert Mul(m, xa + (xb - xa) * q) == m * xa + (xb - xa) * (q * m);
  }

  /** The two shares of a positive total are not negative and add up to one. */
  lemma Shares(ma: real, mb: real)
    requires 0.0 <= ma && 0.0 <= mb && 0.0 < ma + mb
    ensures 0.0 <= ma / (ma + mb) && 0.0 <= mb / (ma + mb)
    ensures ma / (ma + mb) + mb / (ma + mb) == 1.0
  {
    var m := ma + mb;
    assert ma / m + mb / m == (ma + mb) / m;
  }

  /** With non-negative masses the shifted coordinate lies between the two. */
  lemma ShiftBetween(ma: real, mb: real, xa: real, xb: real)
    requires 0.0 <= ma && 0.0 <= mb && 0.0 < ma + mb
    ensures Min(xa, xb) <= Shift(xa, xb, mb / (ma + mb)) <= Max(xa, xb)
  {
    var m := ma + mb;
    var q := mb / m;
    Shares(ma, mb);
    if xa <= xb {
      MulNonNegative(xb - xa, q);
      MulNonNegative(xb - xa, 1.0 - q);
      assert Mul(xb - xa, 1.0 - q) == (xb - xa) - (xb - xa) * q;
    } else {
      MulNonNegative(xa - xb, q);
      MulNonNegative(xa - xb, 1.0 - q);
      assert Mul(xa - xb, q) == -((xb - xa) * q);
      assert Mul(xa - xb, 1.0 - q) == (xa - xb) + (xb - xa) * q;
    }
  }

  /** The merged planet's coordinates and velocities, which `CombineConserves` reasons about. */
  lemma CombineFields(a: Body, b: Body, sqrt: real -> real)
    requires IsSqrt(sqrt) && Proper(a) && Proper(b) && Overlap(a, b, sqrt)
    ensures var r := Combine(a, b, sqrt).1;
            var m := a.mass + b.mass;
            m != 0.0 &&
            r.mass == m &&
            r.xVelocity == Blend(a.xVelocity, a.mass / m, b.xVelocity, b.mass / m) &&
            r.yVelocity == Blend(a.yVelocity, a.mass / m, b.yVelocity, b.mass / m) &&
            r.x == Shift(a.x, b.x, b.mass / m) &&
            r.y == Shift(a.y, b.y, b.mass / m)
  {
    OverlapMassPositive(a, b, sqrt);
  }

  /** A merge conserves mass and both components of momentum. */
  lemma CombineConserves(a: Body, b: Body, sqrt: real -> real)
    requires IsSqrt(sqrt) && Proper(a) && Proper(b) && Overlap(a, b, sqrt)
    ensures forall q :: Amount(Combine(a, b, sqrt).1, q) == Amount(a, q) + Amount(b, q)
  {
    var r := Combine(a, b, sqrt).1;
    CombineFields(a, b, sqrt);
    forall q
      ensures Amount(r, q) == Amount(a, q) + Amount(b, q)
    {
      match q
      case Mass =>
      case XMomentum => WeightedMean(a.mass, b.mass, a.xVelocity, b.xVelocity);
      case YMomentum => WeightedMean(a.mass, b.mass, a.yVelocity, b.yVelocity);
    }
  }

  /** The merged planet sits on the barycentre of the two, on the segment between them. */
  lemma CombineBarycentre(a: Body, b: Body, sqrt: real -> real)
    requires IsSqrt(sqrt) && Proper(a) && Proper(b) && Overlap(a, b, sqrt)
    ensures var r := Combine(a, b, sqrt).1;
            Mul(r.mass, r.x) == Mul(a.mass, a.x) + Mul(b.mass, b.x) &&
            Mul(r.mass, r.y) == Mul(a.mass, a.y) + Mul(b.mass, b.y) &&
            Min(a.x, b.x) <= r.x <= Max(a.x, b.x) &&
            Min(a.y, b.y) <= r.y <= Max(a.y, b.y)
  {
    CombineFields(a, b, sqrt);
    ShiftIsBarycentre(a.mass, b.mass, a.x, b.x);
    ShiftIsBarycentre(a.mass, b.mass, a.y, b.y);
    SquarePositive(a.radius);
    SquarePositive(b.radius);
    ShiftBetween(a.mass, b.mass, a.x, b.x);
    ShiftBetween(a.mass, b.mass, a.y, b.y);
  }

  /** A planet merged from two on the canvas is on the canvas. */
  lemma CombineInWorld(a: Body, b: Body, s: Settings, sqrt: real -> real)
    requires IsSqrt(sqrt) && Proper(a) && Proper(b)
    requires InWorld(a, s) && InWorld(b, s)
    ensures InWorld(Combine(a, b, sqrt).1, s)
  {
    if Overlap(a, b, sqrt) {
      CombineBarycentre(a, b, sqrt);
    }
  }

  /** The distance, and so the merge test, does not depend on the order of the two. */
  lemma OverlapSymmetric(a: Body, b: Body, sqrt: real -> real)
    requires IsSqrt(sqrt)
    ensures Separation(a, b, sqrt) == Separation(b, a, sqrt)
    ensures Overlap(a, b, sqrt) <==> Overlap(b, a, sqrt)
  {
    assert Sq(a.x - b.x) == Mul(-(b.x - a.x), -(b.x - a.x)) == Sq(b.x - a.x);
    assert Sq(a.y - b.y) == Mul(-(b.y - a.y), -(b.y - a.y)) == Sq(b.y - a.y);
  }

  /** The collection after planet `i` absorbed planet `j`: the merged planet replaces `i` and `j` is spliced out. */
  function Absorb(bs: seq<Body>, i: nat, j: nat, sqrt: real -> real): (r: seq<Body>)
    requires IsSqrt(sqrt) && AllProper(bs) && i < j < |bs|
    ensures |r| == |bs| - 1
    ensures r[..i] == bs[..i] && r[i] == Combine(bs[i], bs[j], sqrt).1
    ensures r[i + 1..j] == bs[i + 1..j] && r[j..] == bs[j + 1..]
    ensures Overlap(bs[i], bs[j], sqrt) ==> AllProper(r)
  {
    var merged := bs[i := Combine(bs[i], bs[j], sqrt).1];
    assert merged[i + 1..j] == bs[i + 1..j];
    merged[..j] + merged[j + 1..]
  }

  /**
   * Planet `i` holding the result of `Combine` is proper; after an
   * absorption, splicing `j` out gives `Absorb`, and otherwise nothing changed.
   */
  lemma AbsorbInPlace(bs: seq<Body>, i: nat, j: nat, sqrt: real -> real)
    requires IsSqrt(sqrt) && AllProper(bs) && i < j < |bs|
    ensures var cs := bs[i := Combine(bs[i], bs[j], sqrt).1];
            AllProper(cs) &&
            (Overlap(bs[i], bs[j], sqrt) ==> cs[..j] + cs[j + 1..] == Absorb(bs, i, j, sqrt)) &&
            (!Overlap(bs[i], bs[j], sqrt) ==> cs == bs)
  {
  }

  /** Absorbing conserves every total, and keeps the collection on the canvas. */
  lemma AbsorbConserves(bs: seq<Body>, i: nat, j: nat, s: Settings, sqrt: real -> real)
    requires IsSqrt(sqrt) && AllProper(bs) && i < j < |bs| && Overlap(bs[i], bs[j], sqrt)
    ensures forall q :: Total(Absorb(bs, i, j, sqrt), q) == Total(bs, q)
    ensures AllInWorld(bs, s) ==> AllInWorld(Absorb(bs, i, j, sqrt), s)
  {
    var c := Combine(bs[i], bs[j], sqrt).1;
    var merged := bs[i := c];
    assert Absorb(bs, i, j, sqrt) == merged[..j] + merged[j + 1..];
    CombineConserves(bs[i], bs[j], sqrt);
    forall q
      ensures Total(Absorb(bs, i, j, sqrt), q) == Total(bs, q)
    {
      TotalUpdate(bs, i, c, q);
      TotalRemove(merged, j, q);
    }
    if AllInWorld(bs, s) {
      CombineInWorld(bs[i], bs[j], s, sqrt);
      assert AllInWorld(merged, s);
    }
  }

  /**
   * The merge pass from position (`i`, `j`) of its two loops. After an
   * absorption `scripts.js` steps `j` back once before the loop steps it on,
   * so the planet that slid into slot `j` is tested next.
   */
  function MergeScan(bs: seq<Body>, i: nat, j: nat, sqrt: real -> real): (r: seq<Body>)
    requires IsSqrt(sqrt) && AllProper(bs) && i <= |bs| && j <= |bs|
    ensures AllProper(r)
    ensures i <= |r| <= |bs| && r[..i] == bs[..i]
    decreases |bs| - i, |bs| - j
  {
    if i == |bs| then bs
    else if j == |bs| then MergeScan(bs, i + 1, 0, sqrt)
    else if i < j && Combine(bs[i], bs[j], sqrt).0 then
      var next := Absorb(bs, i, j, sqrt);
      var r := MergeScan(next, i, j, sqrt);
      assert r[..i] == next[..i];
      r
    else MergeScan(bs, i, j + 1, sqrt)
  }

  /**
   * After planet `i` absorbs planet `j` the scan goes on at the same (`i`, `j`)
   * in the shorter collection, where slot `j` now holds the planet that came
   * after the absorbed one and slot `i` the grown planet: that planet is
   * tested against the grown one next (`OneAbsorbsTwo` shows one planet
   * absorbing two others in one pass).
   */
  lemma MergeScanRetests(bs: seq<Body>, i: nat, j: nat, sqrt: real -> real)
    requires IsSqrt(sqrt) && AllProper(bs) && i < j < |bs| && Overlap(bs[i], bs[j], sqrt)
    ensures var next := Absorb(bs, i, j, sqrt);
            MergeScan(bs, i, j, sqrt) == MergeScan(next, i, j, sqrt) &&
            next[i] == Combine(bs[i], bs[j], sqrt).1 &&
            (j + 1 < |bs| ==> next[j] == bs[j + 1])
  {
    var next := Absorb(bs, i, j, sqrt);
    if j + 1 < |bs| {
      assert next[j..][0] == bs[j + 1..][0];
    }
  }

  /**
   * One test of the scan at (`i`, `j`): the collection and the position the
   * scan goes on from. After an absorption the scan stays at `j`, where the
   * planet after the absorbed one now is; the position `i` is not tested
   * against itself or an earlier planet.
   */
  function ScanStep(bs: seq<Body>, i: nat, j: nat, sqrt: real -> real): (r: (seq<Body>, nat))
    requires IsSqrt(sqrt) && AllProper(bs) && i < |bs| && j < |bs|
    ensures AllProper(r.0) && i < |r.0| && r.1 <= |r.0|
    ensures |r.0| - r.1 < |bs| - j
    ensures MergeScan(r.0, i, r.1, sqrt) == MergeScan(bs, i, j, sqrt)
    ensures |r.0| + 1 >= |bs| && MergeCount(bs, i, j, sqrt) == MergeCount(r.0, i, r.1, sqrt) + (|bs| - |r.0|)
  {
    if i < j && Overlap(bs[i], bs[j], sqrt) then
      MergeScanRetests(bs, i, j, sqrt);
      (Absorb(bs, i, j, sqrt), j)
    else
      (bs, j + 1)
  }

  /**
   * How many times `combine` returns true in the merge pass from position
   * (`i`, `j`) on: each absorption splices out exactly one planet.
   */
  function MergeCount(bs: seq<Body>, i: nat, j: nat, sqrt: real -> real): (n: nat)
    requires IsSqrt(sqrt) && AllProper(bs) && i <= |bs| && j <= |bs|
    ensures |MergeScan(bs, i, j, sqrt)| + n == |bs|
    decreases |bs| - i, |bs| - j
  {
    if i == |bs| then 0
    else if j == |bs| then MergeCount(bs, i + 1, 0, sqrt)
    else if i < j && Combine(bs[i], bs[j], sqrt).0 then 1 + MergeCount(Absorb(bs, i, j, sqrt), i, j, sqrt)
    else MergeCount(bs, i, j + 1, sqrt)
  }

  /** The merge pass of a tick. */
  function MergePass(bs: seq<Body>, sqrt: real -> real): (r: seq<Body>)
    requires IsSqrt(sqrt) && AllProper(bs)
    ensures AllProper(r) && |r| <= |bs|
    ensures |bs| > 0 ==> |r| > 0
    ensures |r| + MergeCount(bs, 0, 0, sqrt) == |bs|
  {
    var r := MergeScan(bs, 0, 0, sqrt);
    if |bs| > 0 then
      MergeScanKeepsFirst(bs, 0, 0, sqrt);
      r
    else r
  }

  /** From a position with `i` on a planet, that planet stays: the pass never empties a non-empty collection. */
  lemma {:induction false} MergeScanKeepsFirst(bs: seq<Body>, i: nat, j: nat, sqrt: real -> real)
    requires IsSqrt(sqrt) && AllProper(bs) && i < |bs| && j <= |bs|
    ensures i < |MergeScan(bs, i, j, sqrt)|
    decreases |bs| - i, |bs| - j
  {
    if j == |bs| {
      if i + 1 < |bs| {
        MergeScanKeepsFirst(bs, i + 1, 0, sqrt);
      }
    } else if i < j && Combine(bs[i], bs[j], sqrt).0 {
      MergeScanKeepsFirst(Absorb(bs, i, j, sqrt), i, j, sqrt);
    } else {
      MergeScanKeepsFirst(bs, i, j + 1, sqrt);
    }
  }

  /** The merge pass conserves mass and momentum and keeps the planets on the canvas. */
  lemma {:induction false} MergeScanConserves(bs: seq<Body>, i: nat, j: nat, s: Settings, sqrt: real -> real)
    requires IsSqrt(sqrt) && AllProper(bs) && i <= |bs| && j <= |bs|
    ensures forall q :: Total(MergeScan(bs, i, j, sqrt), q) == Total(bs, q)
    ensures AllInWorld(bs, s) ==> AllInWorld(MergeScan(bs, i, j, sqrt), s)
    decreases |bs| - i, |bs| - j
  {
    if i == |bs| {
    } else if j == |bs| {
      MergeScanConserves(bs, i + 1, 0, s, sqrt);
    } else if i < j && Combine(bs[i], bs[j], sqrt).0 {
      AbsorbConserves(bs, i, j, s, sqrt);
      MergeScanConserves(Absorb(bs, i, j, sqrt), i, j, s, sqrt);
    } else {
      MergeScanConserves(bs, i, j + 1, s, sqrt);
    }
  }

  /** No pair left to test overlaps: the planets at (`i`, `j`) onward in scan order. */
  predicate Settled(bs: seq<Body>, i: nat, j: nat, sqrt: real -> real)
    requires IsSqrt(sqrt)
  {
    forall p, q :: i <= p < q < |bs| && (p > i || q >= j) ==> !Overlap(bs[p], bs[q], sqrt)
  }

  /** The merge pass leaves a collection unchanged exactly when no pair it tests overlaps. */
  lemma {:induction false} MergeScanSettled(bs: seq<Body>, i: nat, j: nat, sqrt: real -> real)
    requires IsSqrt(sqrt) && AllProper(bs) && i <= |bs| && j <= |bs|
    ensures Settled(bs, i, j, sqrt) <==> MergeScan(bs, i, j, sqrt) == bs
    decreases |bs| - i, |bs| - j
  {
    if i == |bs| {
    } else if j == |bs| {
      SettledNextRow(bs, i, sqrt);
      MergeScanSettled(bs, i + 1, 0, sqrt);
    } else if i < j && Combine(bs[i], bs[j], sqrt).0 {
      assert !Settled(bs, i, j, sqrt);
      assert |MergeScan(bs, i, j, sqrt)| < |bs|;
    } else {
      SettledNext(bs, i, j, sqrt);
      MergeScanSettled(bs, i, j + 1, sqrt);
    }
  }

  /** At the end of a row the pairs left are those of the next row. */
  lemma SettledNextRow(bs: seq<Body>, i: nat, sqrt: real -> real)
    requires IsSqrt(sqrt) && i < |bs|
    ensures Settled(bs, i, |bs|, sqrt) <==> Settled(bs, i + 1, 0, sqrt)
  {
  }

  /** Past position `j` the pairs left are the same, less (`i`, `j`) when it is tested. */
  lemma SettledNext(bs: seq<Body>, i: nat, j: nat, sqrt: real -> real)
    requires IsSqrt(sqrt) && i < |bs| && j < |bs|
    ensures Settled(bs, i, j, sqrt) <==> (i < j ==> !Overlap(bs[i], bs[j], sqrt)) && Settled(bs, i, j + 1, sqrt)
  {
  }

  /**
   * Radius 10 at the origin and radius 3 at distance 8 merge (8 + 1.5 < 10);
   * at distance 9 they do not (9 + 1.5 >= 10). The merged planet has mass
   * 109 and sits 9/109 of the way toward the smaller one.
   */
  lemma MergeThreshold(sqrt: real -> real)
    requires IsSqrt(sqrt)
    ensures var big := Body(0.0, 0.0, 0.0, 0.0, 0.0, 0.0, 10.0, 100.0, 10.0);
            var near := Body(8.0, 0.0, 1.0, 0.0, 0.0, 0.0, 3.0, 9.0, 3.0);
            var far := Body(9.0, 0.0, 1.0, 0.0, 0.0, 0.0, 3.0, 9.0, 3.0);
            Proper(big) && Proper(near) && Proper(far) &&
            Combine(big, near, sqrt) ==
              (true, Body(72.0 / 109.0, 0.0, 9.0 / 109.0, 0.0, 0.0, 0.0, sqrt(109.0), 109.0, 10.0)) &&
            Combine(big, far, sqrt) == (false, big)
  {
    SqrtOfSquare(sqrt, 8.0);
    SqrtOfSquare(sqrt, 9.0);
  }

  /** A planet of radius 10 at the origin, with planets of radius 1 at distance 3 to its right and to its left. */
  function Cluster(): seq<Body>
  {
    [Body(0.0, 0.0, 0.0, 0.0, 0.0, 0.0, 10.0, 100.0, 10.0),
     Body(3.0, 0.0, 0.0, 0.0, 0.0, 0.0, 1.0, 1.0, 1.0),
     Body(-3.0, 0.0, 0.0, 0.0, 0.0, 0.0, 1.0, 1.0, 1.0)]
  }

  /** The large planet absorbs the one on its right (3 + 0.5 < 10) and moves 3/101 toward it. */
  lemma ClusterFirstMerge(sqrt: real -> real)
    requires IsSqrt(sqrt)
    ensures AllProper(Cluster())
    ensures Combine(Cluster()[0], Cluster()[1], sqrt) ==
              (true, Body(3.0 / 101.0, 0.0, 0.0, 0.0, 0.0, 0.0, sqrt(101.0), 101.0, 10.0))
  {
    var a, b := Cluster()[0], Cluster()[1];
    assert SqNorm(b.x - a.x, b.y - a.y) == Sq(3.0);
    SqrtOfSquare(sqrt, 3.0);
    assert Separation(a, b, sqrt) == 3.0;
    assert Overlap(a, b, sqrt);
    assert a.mass / (a.mass + b.mass) == 100.0 / 101.0 && b.mass / (a.mass + b.mass) == 1.0 / 101.0;
    assert Shift(a.x, b.x, 1.0 / 101.0) == 3.0 / 101.0;
  }

  /**
   * The grown planet, of radius √101 > 10, absorbs the one on the left at
   * distance 3 + 3/101 and lands back on the origin with mass 102.
   */
  lemma ClusterSecondMerge(sqrt: real -> real)
    requires IsSqrt(sqrt)
    ensures var grown := Body(3.0 / 101.0, 0.0, 0.0, 0.0, 0.0, 0.0, sqrt(101.0), 101.0, 10.0);
            Proper(grown) &&
            Combine(grown, Cluster()[2], sqrt) == (true, Body(0.0, 0.0, 0.0, 0.0, 0.0, 0.0, sqrt(102.0), 102.0, 10.0))
  {
    var grown := Body(3.0 / 101.0, 0.0, 0.0, 0.0, 0.0, 0.0, sqrt(101.0), 101.0, 10.0);
    var gap := 3.0 + 3.0 / 101.0;
    assert SqNorm(Cluster()[2].x - grown.x, Cluster()[2].y - grown.y) == Sq(gap) by {
      assert Mul(-gap, -gap) == Mul(gap, gap);
    }
    SqrtOfSquare(sqrt, gap);
    SqrtAbove(sqrt, 101.0, 10.0);
  }

  /**
   * One planet can absorb several others in one pass: in `Cluster` the large
   * planet absorbs the right one, and the left one, which then slides into
   * slot 1, is tested against the grown planet and absorbed too. `combine`
   * returns true twice and one planet of the total mass is left.
   */
  lemma OneAbsorbsTwo(sqrt: real -> real)
    requires IsSqrt(sqrt)
    ensures AllProper(Cluster())
    ensures MergePass(Cluster(), sqrt) == [Body(0.0, 0.0, 0.0, 0.0, 0.0, 0.0, sqrt(102.0), 102.0, 10.0)]
    ensures MergeCount(Cluster(), 0, 0, sqrt) == 2
  {
    var bs := Cluster();
    ClusterFirstMerge(sqrt);
    ClusterSecondMerge(sqrt);
    var grown := Body(3.0 / 101.0, 0.0, 0.0, 0.0, 0.0, 0.0, sqrt(101.0), 101.0, 10.0);
    var last := Body(0.0, 0.0, 0.0, 0.0, 0.0, 0.0, sqrt(102.0), 102.0, 10.0);
    var mid := [grown, bs[2]];
    assert Absorb(bs, 0, 1, sqrt) == mid;
    assert Absorb(mid, 0, 1, sqrt) == [last];
    assert MergeScan([last], 0, 1, sqrt) == [last];
    assert MergeScan(mid, 0, 1, sqrt) == [last];
    assert MergeScan(bs, 0, 0, sqrt) == MergeScan(bs, 0, 1, sqrt) == [last];
    assert MergeCount([last], 0, 1, sqrt) == 0;
    assert MergeCount(mid, 0, 1, sqrt) == 1;
    assert MergeCount(bs, 0, 0, sqrt) == MergeCount(bs, 0, 1, sqrt) == 2;
  }
}
