/**
 * The engine of the planets simulation: the `Planet` objects whose fields the
 * source updates in place, and the collection of planets with `Reset` and the
 * three passes of `Step` (forces, merging, integration). Each method is tied
 * to the value-level definitions of the other modules.
 */
module Engine {
  import opened World
  import Integrator
  import ForceField
  import Merging

  /** The state of a new planet made from one draw, as the `Planet` constructor sets it. */
  function Spawn(s: Settings, d: Draw): (r: Body)
    ensures r.xAcceleration == 0.0 && r.yAcceleration == 0.0 && r.displayRadius == 0.0
    ensures r.mass == Sq(r.radius)
    ensures r.radius - s.planetMinSize == Mul(d.radiusDraw, s.planetMaxSize - s.planetMinSize)
  {
    var radius := s.planetMinSize + Mul(d.radiusDraw, s.planetMaxSize - s.planetMinSize);
    var speed := Mul(s.planetStartSpeed, d.speedDraw);
    Body(Mul(d.xDraw, s.width), Mul(d.yDraw, s.height),
         Mul(d.cos, speed), Mul(-d.sin, speed),
         0.0, 0.0,
         radius, Sq(radius),
         0.0)
  }

  /** The size range of new planets is not empty and does not reach below zero. */
  predicate SizesOk(s: Settings) {
    0.0 <= s.planetMinSize <= s.planetMaxSize
  }

  /** A drawn fraction of a non-negative extent lies in it. */
  lemma FractionOf(r: real, extent: real)
    requires InUnit(r) && 0.0 <= extent
    ensures 0.0 <= Mul(r, extent) <= extent
  {
    MulNonNegative(r, extent);
    MulNonNegative(1.0 - r, extent);
    assert Mul(1.0 - r, extent) == extent - Mul(r, extent);
  }

  /**
   * A new planet lies on the canvas, has its radius in the size range and the
   * square of it as mass, moves at the drawn fraction of the start speed, and
   * starts with no acceleration and a drawn radius of zero.
   */
  lemma SpawnProperties(s: Settings, d: Draw)
    requires DrawOk(d)
    ensures var b := Spawn(s, d);
            b.xAcceleration == 0.0 && b.yAcceleration == 0.0 && b.displayRadius == 0.0 &&
            b.mass == Sq(b.radius) &&
            SqNorm(b.xVelocity, b.yVelocity) == Sq(Mul(s.planetStartSpeed, d.speedDraw)) &&
            (0.0 <= s.width && 0.0 <= s.height ==> InWorld(b, s)) &&
            (SizesOk(s) ==> Proper(b) && s.planetMinSize <= b.radius <= s.planetMaxSize)
  {
    var b := Spawn(s, d);
    var speed := Mul(s.planetStartSpeed, d.speedDraw);
    assert SqNorm(b.xVelocity, b.yVelocity) == Sq(speed) by {
      assert b.xVelocity == Mul(speed, d.cos) && b.yVelocity == Mul(speed, -d.sin);
      ScaledNorm(speed, d.cos, -d.sin);
      assert Sq(-d.sin) == Mul(-d.sin, -d.sin) == Sq(d.sin);
    }
    if 0.0 <= s.width && 0.0 <= s.height {
      FractionOf(d.xDraw, s.width);
      FractionOf(d.yDraw, s.height);
    }
    if SizesOk(s) {
      FractionOf(d.radiusDraw, s.planetMaxSize - s.planetMinSize);
    }
  }

  /** The planets `Reset` makes, one per draw in order. */
  function SpawnAll(s: Settings, draws: seq<Draw>): (r: seq<Body>)
    ensures |r| == |draws|
    ensures forall k :: 0 <= k < |draws| ==> r[k] == Spawn(s, draws[k])
  {
    seq(|draws|, k requires 0 <= k < |draws| => Spawn(s, draws[k]))
  }

  /** With sound draws and settings, a fresh collection is proper and on the canvas. */
  lemma SpawnAllProper(s: Settings, draws: seq<Draw>)
    requires forall k :: 0 <= k < |draws| ==> DrawOk(draws[k])
    ensures SizesOk(s) ==> AllProper(SpawnAll(s, draws))
    ensures 0.0 <= s.width && 0.0 <= s.height ==> AllInWorld(SpawnAll(s, draws), s)
  {
    forall k | 0 <= k < |draws| {
      SpawnProperties(s, draws[k]);
    }
  }

  /** How many times `combine` returns true during one tick. */
  function StepMerges(bs: seq<Body>, s: Settings, sqrt: real -> real): nat
    requires IsSqrt(sqrt) && AllProper(bs) && ForceField.Apart(bs, s)
  {
    if s.combinePlanets then Merging.MergeCount(ForceField.ForceSpec(bs, s, sqrt), 0, 0, sqrt) else 0
  }

  /** The page's own settings meet the conditions under which new planets are proper and stay on the canvas. */
  lemma DefaultsAreSound()
    ensures SizesOk(Defaults)
    ensures 0.0 <= Defaults.width && 0.0 <= Defaults.height
    ensures 0.0 <= Defaults.velocityLimit <= Defaults.width && Defaults.velocityLimit <= Defaults.height
  {
  }

  /**
   * One tick of the whole simulation on values: the force pass, the merge
   * pass when merging is on, then `step` on every remaining planet.
   */
  function StepSpec(bs: seq<Body>, s: Settings, sqrt: real -> real): (r: seq<Body>)
    requires IsSqrt(sqrt) && AllProper(bs) && ForceField.Apart(bs, s)
    ensures |r| + StepMerges(bs, s, sqrt) == |bs|
  {
    var forced := ForceField.ForceSpec(bs, s, sqrt);
    var merged := if s.combinePlanets then Merging.MergePass(forced, sqrt) else forced;
    Integrator.AdvanceAll(merged, s)
  }

  /**
   * A tick conserves the total mass, keeps every planet proper, never adds
   * planets, removes none when merging is off and never removes all of them,
   * leaves every velocity within the limit and every accumulator cleared, and
   * keeps the planets on the canvas when the velocity limit is at most the
   * canvas size.
   */
  lemma StepSpecProperties(bs: seq<Body>, s: Settings, sqrt: real -> real)
    requires IsSqrt(sqrt) && AllProper(bs) && ForceField.Apart(bs, s)
    ensures var r := StepSpec(bs, s, sqrt);
            Total(r, Mass) == Total(bs, Mass) &&
            AllProper(r) &&
            |r| <= |bs| && (!s.combinePlanets ==> |r| == |bs|) && (|bs| > 0 ==> |r| > 0) &&
            (forall k :: 0 <= k < |r| ==> r[k].xAcceleration == 0.0 && r[k].yAcceleration == 0.0) &&
            (0.0 <= s.velocityLimit ==> forall k :: 0 <= k < |r| ==>
               -s.velocityLimit <= r[k].xVelocity <= s.velocityLimit &&
               -s.velocityLimit <= r[k].yVelocity <= s.velocityLimit) &&
            (AllInWorld(bs, s) && 0.0 <= s.velocityLimit <= s.width && s.velocityLimit <= s.height ==>
               AllInWorld(r, s))
  {
    var forced := ForceField.ForceSpec(bs, s, sqrt);
    ForceField.ForceSpecConserves(bs, s, sqrt, Mass);
    if s.combinePlanets {
      Merging.MergeScanConserves(forced, 0, 0, s, sqrt);
    }
  }

  /** No planet object occurs twice in the collection. */
  predicate Distinct(ps: seq<Planet>)
  {
    forall i, j :: 0 <= i < j < |ps| ==> ps[i] != ps[j]
  }

  /** The states of a collection of planets, in order. */
  ghost function Bodies(ps: seq<Planet>): (r: seq<Body>)
    reads ps
    ensures |r| == |ps|
    ensures forall k :: 0 <= k < |ps| ==> r[k] == ps[k].Snapshot()
  {
    if ps == [] then [] else [ps[0].Snapshot()] + Bodies(ps[1..])
  }

  class Planet {
    var x: real
    var y: real
    var xVelocity: real
    var yVelocity: real
    var xAcceleration: real
    var yAcceleration: real
    var radius: real
    var mass: real
    var displayRadius: real

    /** The planet's state as a value. */
    function Snapshot(): Body
      reads this
    {
      Body(x, y, xVelocity, yVelocity, xAcceleration, yAcceleration, radius, mass, displayRadius)
    }

    /** `new Planet()`: position, radius and velocity from the draw, at rest otherwise. */
    constructor(s: Settings, d: Draw)
      ensures Snapshot() == Spawn(s, d)
    {
      x := d.xDraw * s.width;
      y := d.yDraw * s.height;
      var r := s.planetMinSize + d.radiusDraw * (s.planetMaxSize - s.planetMinSize);
      radius := r;
      mass := Sq(r);
      var speed := s.planetStartSpeed * d.speedDraw;
      xVelocity := d.cos * speed;
      yVelocity := -d.sin * speed;
      xAcceleration := 0.0;
      yAcceleration := 0.0;
      displayRadius := 0.0;
    }

    /** `step`: the integrator on this planet. */
    method Step(s: Settings)
      modifies this
      ensures Snapshot() == Integrator.Advance(old(Snapshot()), s)
    {
      var xv := xVelocity + xAcceleration;
      var yv := yVelocity + yAcceleration;

      if xv > s.velocityLimit { xv := s.velocityLimit; }
      if xv < -s.velocityLimit { xv := -s.velocityLimit; }
      if yv > s.velocityLimit { yv := s.velocityLimit; }
      if yv < -s.velocityLimit { yv := -s.velocityLimit; }
      assert xv == Integrator.Clamp(xVelocity + xAcceleration, s.velocityLimit);
      assert yv == Integrator.Clamp(yVelocity + yAcceleration, s.velocityLimit);
      Integrator.AdvanceComponents(Snapshot(), s, xv, yv);

      var nx := x + xv;
      var ny := y + yv;

      if nx < 0.0 { nx := nx + s.width; }
      if nx > s.width { nx := nx - s.width; }

      if ny < 0.0 { ny := ny + s.height; }
      if ny > s.height { ny := ny - s.height; }
      assert nx == Integrator.WrapOnce(x + xv, s.width);
      assert ny == Integrator.WrapOnce(y + yv, s.height);

      xVelocity, yVelocity := xv, yv;
      x, y := nx, ny;
      displayRadius := displayRadius + (radius - displayRadius) / 2.0;

      xAcceleration := 0.0;
      yAcceleration := 0.0;
    }

    /** `attract`: adds the pull of `other`'s image at the tile offset to this planet's accumulator. */
    method Attract(other: Planet, xTile: int, yTile: int, s: Settings, sqrt: real -> real)
      requires IsSqrt(sqrt)
      requires s.constantDistance || ForceField.ImageApart(x, y, other.x, other.y, xTile, yTile, s)
      modifies this
      ensures Snapshot() == ForceField.Attract(old(Snapshot()), old(other.x), old(other.y), old(other.mass), xTile, yTile, s, sqrt)
    {
      var otherX := ForceField.Image(other.x, xTile, s.width);
      var otherY := ForceField.Image(other.y, yTile, s.height);

      var distance: real;
      if s.constantDistance {
        distance := 300.0;
      } else {
        distance := ForceField.Distance(otherX - x, otherY - y, sqrt);
      }

      SquarePositive(distance);
      var acceleration := Mul(s.gravitationalConstant, other.mass) / Sq(distance);

      if acceleration > s.accelerationLimit { acceleration := s.accelerationLimit; }
      assert acceleration == ForceField.Acceleration(s, other.mass, distance);
      // `acceleration * (otherX - x) / distance` and the same for y
      var pull := ForceField.Along(acceleration, otherX - x, otherY - y, distance);
      assert pull == ForceField.Pull(Snapshot(), other.x, other.y, other.mass, xTile, yTile, s, sqrt);

      xAcceleration := xAcceleration + pull.0;
      yAcceleration := yAcceleration + pull.1;
    }

    /**
     * The `attract` calls `Step` makes for one ordered pair: the direct pull,
     * then with wrap-around the pulls of the eight images of `other` around
     * the canvas, in the order of `scripts.js`.
     */
    method AttractImages(other: Planet, s: Settings, sqrt: real -> real)
      requires IsSqrt(sqrt) && other != this
      requires ForceField.ApartFrom(Snapshot(), other.Snapshot(), s)
      modifies this
      ensures Snapshot() == ForceField.AttractTiles(old(Snapshot()), other.x, other.y, other.mass,
                                                    ForceField.Tiles(s.wrapAttraction), s, sqrt)
    {
      ghost var a := Snapshot();
      assert ForceField.Tiles(s.wrapAttraction)[..0] == [];
      AttractTile(other, 0, 0, a, 0, s, sqrt);
      if s.wrapAttraction {
        AttractLeftImages(other, a, s, sqrt);
        AttractUpperImages(other, a, s, sqrt);
        AttractRightImages(other, a, s, sqrt);
        AttractLowerImages(other, a, s, sqrt);
      }
      assert ForceField.Tiles(s.wrapAttraction)[..|ForceField.Tiles(s.wrapAttraction)|] == ForceField.Tiles(s.wrapAttraction);
    }

    /** The images of `other` to the left and upper left of the canvas, in the order of `scripts.js`. */
    method AttractLeftImages(other: Planet, ghost a: Body, s: Settings, sqrt: real -> real)
      requires IsSqrt(sqrt) && other != this && ForceField.ApartFrom(a, other.Snapshot(), s) && s.wrapAttraction
      requires Snapshot() == ForceField.AttractTiles(a, other.x, other.y, other.mass, ForceField.Tiles(s.wrapAttraction)[..1], s, sqrt)
      modifies this
      ensures Snapshot() == ForceField.AttractTiles(a, other.x, other.y, other.mass, ForceField.Tiles(s.wrapAttraction)[..3], s, sqrt)
    {
      AttractTile(other, -1, 0, a, 1, s, sqrt);
      AttractTile(other, -1, -1, a, 2, s, sqrt);
    }

    /** The images of `other` above and to the upper right of the canvas, in the order of `scripts.js`. */
    method AttractUpperImages(other: Planet, ghost a: Body, s: Settings, sqrt: real -> real)
      requires IsSqrt(sqrt) && other != this && ForceField.ApartFrom(a, other.Snapshot(), s) && s.wrapAttraction
      requires Snapshot() == ForceField.AttractTiles(a, other.x, other.y, other.mass, ForceField.Tiles(s.wrapAttraction)[..3], s, sqrt)
      modifies this
      ensures Snapshot() == ForceField.AttractTiles(a, other.x, other.y, other.mass, ForceField.Tiles(s.wrapAttraction)[..5], s, sqrt)
    {
      AttractTile(other, 0, -1, a, 3, s, sqrt);
      AttractTile(other, 1, -1, a, 4, s, sqrt);
    }

    /** The images of `other` to the right and lower right of the canvas, in the order of `scripts.js`. */
    method AttractRightImages(other: Planet, ghost a: Body, s: Settings, sqrt: real -> real)
      requires IsSqrt(sqrt) && other != this && ForceField.ApartFrom(a, other.Snapshot(), s) && s.wrapAttraction
      requires Snapshot() == ForceField.AttractTiles(a, other.x, other.y, other.mass, ForceField.Tiles(s.wrapAttraction)[..5], s, sqrt)
      modifies this
      ensures Snapshot() == ForceField.AttractTiles(a, other.x, other.y, other.mass, ForceField.Tiles(s.wrapAttraction)[..7], s, sqrt)
    {
      AttractTile(other, 1, 0, a, 5, s, sqrt);
      AttractTile(other, 1, 1, a, 6, s, sqrt);
    }

    /** The images of `other` below and to the lower left of the canvas, in the order of `scripts.js`. */
    method AttractLowerImages(other: Planet, ghost a: Body, s: Settings, sqrt: real -> real)
      requires IsSqrt(sqrt) && other != this && ForceField.ApartFrom(a, other.Snapshot(), s) && s.wrapAttraction
      requires Snapshot() == ForceField.AttractTiles(a, other.x, other.y, other.mass, ForceField.Tiles(s.wrapAttraction)[..7], s, sqrt)
      modifies this
      ensures Snapshot() == ForceField.AttractTiles(a, other.x, other.y, other.mass, ForceField.Tiles(s.wrapAttraction)[..9], s, sqrt)
    {
      AttractTile(other, 0, 1, a, 7, s, sqrt);
      AttractTile(other, -1, 1, a, 8, s, sqrt);
    }

    /**
     * One `attract` call of `AttractImages`: the call for the offset at
     * position `k` of the tile list, after those before it.
     */
    method AttractTile(other: Planet, xTile: int, yTile: int, ghost a: Body, ghost k: nat, s: Settings, sqrt: real -> real)
      requires IsSqrt(sqrt) && other != this && ForceField.ApartFrom(a, other.Snapshot(), s)
      requires k < |ForceField.Tiles(s.wrapAttraction)| && ForceField.Tiles(s.wrapAttraction)[k] == (xTile, yTile)
      requires Snapshot() == ForceField.AttractTiles(a, other.x, other.y, other.mass, ForceField.Tiles(s.wrapAttraction)[..k], s, sqrt)
      modifies this
      ensures Snapshot() == ForceField.AttractTiles(a, other.x, other.y, other.mass, ForceField.Tiles(s.wrapAttraction)[..k + 1], s, sqrt)
    {
      Attract(other, xTile, yTile, s, sqrt);
      ForceField.AttractTilesSnoc(a, other.x, other.y, other.mass, ForceField.Tiles(s.wrapAttraction), k, s, sqrt);
    }

    /** `combine`: absorbs `other` when the two overlap enough, and says whether it did. */
    method Combine(other: Planet, sqrt: real -> real) returns (merged: bool)
      requires IsSqrt(sqrt) && other != this
      requires Proper(Snapshot()) && Proper(other.Snapshot())
      modifies this
      ensures (merged, Snapshot()) == Merging.Combine(old(Snapshot()), other.Snapshot(), sqrt)
    {
      var distance := sqrt(SqNorm(other.x - x, other.y - y));
      var smallerRadius := Min(radius, other.radius);
      var largerRadius := Max(radius, other.radius);

      if distance + smallerRadius / 2.0 < largerRadius {
        Merging.OverlapMassPositive(Snapshot(), other.Snapshot(), sqrt);
        var thisProportion := mass / (mass + other.mass);
        var otherProportion := other.mass / (mass + other.mass);

        // `v * thisProportion + other.v * otherProportion` per axis
        xVelocity := Merging.Blend(xVelocity, thisProportion, other.xVelocity, otherProportion);
        yVelocity := Merging.Blend(yVelocity, thisProportion, other.yVelocity, otherProportion);

        // `p + (other.p - p) * otherProportion` per axis
        x := Merging.Shift(x, other.x, otherProportion);
        y := Merging.Shift(y, other.y, otherProportion);

        displayRadius := Max(displayRadius, other.displayRadius);

        mass := mass + other.mass;
        radius := sqrt(mass);

        merged := true;
      } else {
        merged := false;
      }
    }
  }

  /** Once every planet holds its row, the states of the collection are the rows. */
  lemma BodiesAreRows(ps: seq<Planet>, rows: seq<Body>)
    requires |ps| == |rows|
    requires forall k :: 0 <= k < |ps| ==> ps[k].Snapshot() == rows[k]
    ensures Bodies(ps) == rows
  {
  }

  /** The states of a collection in which only planet `i` changed. */
  lemma UpdatedBodies(ps: seq<Planet>, bs: seq<Body>, i: nat, c: Body)
    requires i < |ps| == |bs| && ps[i].Snapshot() == c
    requires forall k :: 0 <= k < |ps| && k != i ==> ps[k].Snapshot() == bs[k]
    ensures Bodies(ps) == bs[i := c]
  {
  }

  /** Splicing planet `j` out keeps the rest distinct, proper and in order. */
  lemma Spliced(ps: seq<Planet>, qs: seq<Planet>, all: seq<Planet>, j: nat)
    requires j < |ps| && Distinct(ps) && AllProper(Bodies(ps)) && qs == ps[..j] + ps[j + 1..]
    requires forall k :: 0 <= k < |ps| ==> ps[k] in all
    ensures Bodies(qs) == Bodies(ps)[..j] + Bodies(ps)[j + 1..]
    ensures Distinct(qs) && AllProper(Bodies(qs))
    ensures forall k :: 0 <= k < |qs| ==> qs[k] in all
  {
    forall k | 0 <= k < |qs|
      ensures qs[k] in all
    {
      if k < j {
        assert qs[k] == ps[k];
      } else {
        assert qs[k] == ps[k + 1];
      }
    }
    SplicedDistinct(ps, j);
    SplicedBodies(ps, j);
    AllProperSplice(Bodies(ps), j);
  }

  lemma SplicedDistinct(ps: seq<Planet>, j: nat)
    requires j < |ps| && Distinct(ps)
    ensures Distinct(ps[..j] + ps[j + 1..])
  {
    var qs := ps[..j] + ps[j + 1..];
    forall a, b | 0 <= a < b < |qs|
      ensures qs[a] != qs[b]
    {
      var a' := if a < j then a else a + 1;
      var b' := if b < j then b else b + 1;
      assert qs[a] == ps[a'] && qs[b] == ps[b'] && a' < b';
    }
  }

  lemma SplicedBodies(ps: seq<Planet>, j: nat)
    requires j < |ps|
    ensures Bodies(ps[..j] + ps[j + 1..]) == Bodies(ps)[..j] + Bodies(ps)[j + 1..]
  {
    var qs := ps[..j] + ps[j + 1..];
    var bs := Bodies(ps);
    var cs := bs[..j] + bs[j + 1..];
    var rs := Bodies(qs);
    forall k | 0 <= k < |qs|
      ensures rs[k] == cs[k]
    {
      if k < j {
        assert qs[k] == ps[k] && cs[k] == bs[k];
      } else {
        assert qs[k] == ps[k + 1] && cs[k] == bs[k + 1];
      }
    }
    assert |rs| == |cs|;
  }

  /**
   * `ps` holds the planets of `orig` at the strictly increasing positions
   * `kept`: it is a subsequence of `orig`, in the same relative order.
   */
  predicate Subsequence(ps: seq<Planet>, orig: seq<Planet>, kept: seq<nat>)
  {
    |kept| == |ps| &&
    (forall a, b :: 0 <= a < b < |kept| ==> kept[a] < kept[b]) &&
    (forall k :: 0 <= k < |kept| ==> kept[k] < |orig| && ps[k] == orig[kept[k]])
  }

  /** The positions `0 .. n-1`. */
  function Identity(n: nat): seq<nat>
  {
    seq(n, k requires 0 <= k < n => k as nat)
  }

  lemma SubsequenceOfItself(ps: seq<Planet>)
    ensures Subsequence(ps, ps, Identity(|ps|))
  {
  }

  /** Splicing position `j` out of a subsequence and out of its positions gives a subsequence. */
  lemma SubsequenceSplice(ps: seq<Planet>, qs: seq<Planet>, orig: seq<Planet>, kept: seq<nat>, rest: seq<nat>, j: nat)
    requires Subsequence(ps, orig, kept) && j < |ps|
    requires qs == ps[..j] + ps[j + 1..] && rest == kept[..j] + kept[j + 1..]
    ensures Subsequence(qs, orig, rest)
    ensures forall k :: 0 <= k < j ==> rest[k] == kept[k]
  {
  }

  /** The collection of planets the page animates (`PlanetObjects`). */
  class Simulation {
    var planets: seq<Planet>

    /** Every planet object occurs once and every planet is proper. */
    ghost predicate Valid()
      reads this, planets
    {
      Distinct(planets) && AllProper(Bodies(planets))
    }

    /** The page before the first `Reset`. */
    constructor()
      ensures planets == [] && Valid()
    {
      planets := [];
    }

    /** `Reset`: a new collection of one fresh planet per draw. */
    method Reset(s: Settings, draws: seq<Draw>)
      requires |draws| == s.numberOfPlanets
      modifies this
      ensures |planets| == s.numberOfPlanets && Distinct(planets)
      ensures forall k :: 0 <= k < |planets| ==> fresh(planets[k])
      ensures Bodies(planets) == SpawnAll(s, draws)
      ensures SizesOk(s) && (forall k :: 0 <= k < |draws| ==> DrawOk(draws[k])) ==>
                Valid() && (0.0 <= s.width && 0.0 <= s.height ==> AllInWorld(Bodies(planets), s))
    {
      planets := [];
      var i := 0;
      while i < s.numberOfPlanets
        invariant 0 <= i <= |draws| && |planets| == i
        invariant Distinct(planets)
        invariant forall k :: 0 <= k < i ==> fresh(planets[k]) && planets[k].Snapshot() == Spawn(s, draws[k])
      {
        var p := new Planet(s, draws[i]);
        planets := planets + [p];
        i := i + 1;
      }
      if forall k :: 0 <= k < |draws| ==> DrawOk(draws[k]) {
        SpawnAllProper(s, draws);
      }
    }

    /**
     * The force pass of `Step`: every planet, in order, attracts every
     * other one (and its images when wrap-around is on).
     */
    method ApplyForces(s: Settings, sqrt: real -> real)
      requires IsSqrt(sqrt) && Distinct(planets) && ForceField.Apart(Bodies(planets), s)
      modifies planets
      ensures planets == old(planets)
      ensures Bodies(planets) == ForceField.ForceSpec(old(Bodies(planets)), s, sqrt)
    {
      ghost var bs := Bodies(planets);
      ghost var rows := ForceField.ForceSpec(bs, s, sqrt);
      var i := 0;
      while i < |planets|
        invariant 0 <= i <= |planets| == |bs|
        invariant forall k :: 0 <= k < |planets| ==> planets[k].Snapshot() == if k < i then rows[k] else bs[k]
      {
        AttractRow(i, bs, rows, s, sqrt);
        i := i + 1;
      }
      BodiesAreRows(planets, rows);
    }

    /**
     * The inner loop of the force pass: planet `i` attracts every other
     * planet, in order. Before it the planets ahead of `i` hold their rows of
     * the force pass and the others their first state; after it planet `i`
     * holds its row as well.
     */
    method AttractRow(i: nat, ghost bs: seq<Body>, ghost rows: seq<Body>, s: Settings, sqrt: real -> real)
      requires IsSqrt(sqrt) && Distinct(planets) && ForceField.Apart(bs, s) && i < |planets| == |bs|
      requires rows == ForceField.ForceSpec(bs, s, sqrt)
      requires forall k :: 0 <= k < |planets| ==> planets[k].Snapshot() == if k < i then rows[k] else bs[k]
      modifies planets[i]
      ensures forall k :: 0 <= k < |planets| ==> planets[k].Snapshot() == if k < i + 1 then rows[k] else bs[k]
    {
      assert forall k :: 0 <= k < |planets| ==>
               planets[k].x == bs[k].x && planets[k].y == bs[k].y && planets[k].mass == bs[k].mass;
      AttractOthers(i, bs, s, sqrt);
      assert forall k :: 0 <= k < |planets| && k != i ==> planets[k] != planets[i];
      assert forall k :: 0 <= k < |planets| && k != i ==> planets[k].Snapshot() == old(planets[k].Snapshot());
    }

    /** The loop over the partners `j` of planet `i`, skipping `i` itself. */
    method AttractOthers(i: nat, ghost bs: seq<Body>, s: Settings, sqrt: real -> real)
      requires IsSqrt(sqrt) && Distinct(planets) && ForceField.Apart(bs, s) && i < |planets| == |bs|
      requires planets[i].Snapshot() == bs[i]
      requires forall k :: 0 <= k < |planets| ==>
                 planets[k].x == bs[k].x && planets[k].y == bs[k].y && planets[k].mass == bs[k].mass
      modifies planets[i]
      ensures planets[i].Snapshot() == ForceField.AttractRow(bs[i], bs, i, |bs|, s, sqrt)
    {
      var j := 0;
      while j < |planets|
        invariant 0 <= j <= |planets|
        invariant planets[i].Snapshot() == ForceField.AttractRow(bs[i], bs, i, j, s, sqrt)
      {
        if i != j {
          AttractPartner(i, j, bs, s, sqrt);
        }
        j := j + 1;
      }
    }

    /** `PlanetObjects[i].attract(PlanetObjects[j])` in the force pass, for `i != j`. */
    method AttractPartner(i: nat, j: nat, ghost bs: seq<Body>, s: Settings, sqrt: real -> real)
      requires IsSqrt(sqrt) && Distinct(planets) && ForceField.Apart(bs, s)
      requires i < |planets| == |bs| && j < |planets| && i != j
      requires planets[i].x == bs[i].x && planets[i].y == bs[i].y
      requires planets[j].x == bs[j].x && planets[j].y == bs[j].y && planets[j].mass == bs[j].mass
      requires planets[i].Snapshot() == ForceField.AttractRow(bs[i], bs, i, j, s, sqrt)
      modifies planets[i]
      ensures planets[i].Snapshot() == ForceField.AttractRow(bs[i], bs, i, j + 1, s, sqrt)
    {
      assert planets[i] != planets[j];
      ForceField.ApartFromMoved(bs[i], bs[j], planets[i].Snapshot(), planets[j].Snapshot(), s);
      planets[i].AttractImages(planets[j], s, sqrt);
    }

    /**
     * The merge pass of `Step`: each planet, in order, tries to absorb
     * every later one; after an absorption the absorbed planet is spliced
     * out and `j` is stepped back, so the planet that slid into its slot is
     * tested next.
     */
    method CombineAll(sqrt: real -> real) returns (ghost kept: seq<nat>, ghost merges: nat)
      requires IsSqrt(sqrt) && Distinct(planets) && AllProper(Bodies(planets))
      modifies this, planets
      ensures Distinct(planets) && forall k :: 0 <= k < |planets| ==> planets[k] in old(planets)
      ensures Bodies(planets) == Merging.MergePass(old(Bodies(planets)), sqrt)
      ensures Subsequence(planets, old(planets), kept)
      ensures |planets| + merges == old(|planets|) && merges == Merging.MergeCount(old(Bodies(planets)), 0, 0, sqrt)
    {
      ghost var start := Bodies(planets);
      ghost var target := Merging.MergePass(start, sqrt);
      ghost var bodies := start;
      SubsequenceOfItself(planets);
      kept, merges := Identity(|planets|), 0;
      var i := 0;
      while i < |planets|
        invariant 0 <= i <= |planets|
        invariant Distinct(planets) && AllProper(bodies)
        invariant bodies == Bodies(planets)
        invariant forall k :: 0 <= k < |planets| ==> planets[k] in old(planets)
        invariant Merging.MergeScan(bodies, i, 0, sqrt) == target
        invariant Subsequence(planets, old(planets), kept)
        invariant |planets| + merges == old(|planets|)
        invariant Merging.MergeCount(start, 0, 0, sqrt) == merges + Merging.MergeCount(bodies, i, 0, sqrt)
        decreases |planets| - i
      {
        ghost var absorbed;
        kept, absorbed := AbsorbLater(i, sqrt, old(planets), old(planets), kept);
        merges := merges + absorbed;
        i := i + 1;
        bodies := Bodies(planets);
      }
      assert Merging.MergeScan(bodies, i, 0, sqrt) == bodies && Merging.MergeCount(bodies, i, 0, sqrt) == 0;
    }

    /**
     * The inner loop of the merge pass for planet `i`: it tries to absorb
     * each later planet, and after an absorption the planet that slid into
     * the freed slot is tried next. The planets up to `i` stay where they
     * are, and `merges` counts the absorptions.
     */
    method AbsorbLater(i: nat, sqrt: real -> real, ghost all: seq<Planet>, ghost orig: seq<Planet>, ghost kept: seq<nat>)
      returns (ghost rest: seq<nat>, ghost merges: nat)
      requires IsSqrt(sqrt) && Distinct(planets) && AllProper(Bodies(planets)) && i < |planets|
      requires forall k :: 0 <= k < |planets| ==> planets[k] in all
      requires Subsequence(planets, orig, kept)
      modifies this, all
      ensures Distinct(planets) && AllProper(Bodies(planets))
      ensures forall k :: 0 <= k < |planets| ==> planets[k] in all
      ensures i < |planets| <= old(|planets|)
      ensures Merging.MergeScan(Bodies(planets), i + 1, 0, sqrt) == Merging.MergeScan(old(Bodies(planets)), i, 0, sqrt)
      ensures Subsequence(planets, orig, rest) && forall k :: 0 <= k <= i ==> rest[k] == kept[k]
      ensures |planets| + merges == old(|planets|)
      ensures Merging.MergeCount(old(Bodies(planets)), i, 0, sqrt) == merges + Merging.MergeCount(Bodies(planets), i + 1, 0, sqrt)
    {
      ghost var start := Bodies(planets);
      ghost var target := Merging.MergeScan(start, i, 0, sqrt);
      ghost var bodies := start;
      rest, merges := kept, 0;
      var j := 0;
      while j < |planets|
        invariant 0 <= j <= |planets| && i < |planets| <= old(|planets|)
        invariant Distinct(planets) && AllProper(Bodies(planets))
        invariant forall k :: 0 <= k < |planets| ==> planets[k] in all
        invariant bodies == Bodies(planets)
        invariant Merging.MergeScan(bodies, i, j, sqrt) == target
        invariant Subsequence(planets, orig, rest) && forall k :: 0 <= k <= i ==> rest[k] == kept[k]
        invariant |planets| + merges == old(|planets|)
        invariant Merging.MergeCount(start, i, 0, sqrt) == merges + Merging.MergeCount(bodies, i, j, sqrt)
        decreases |planets| - j
      {
        ghost var step := Merging.ScanStep(bodies, i, j, sqrt);
        var merged;
        merged, rest := TestPair(i, j, sqrt, all, orig, rest);
        if merged {
          j := j - 1;
          merges := merges + 1;
        }
        j := j + 1;
        bodies := Bodies(planets);
        assert bodies == step.0 && j == step.1;
      }
    }

    /**
     * One round of the inner merge loop at (`i`, `j`): when `i < j`,
     * `PlanetObjects[i].combine(PlanetObjects[j])` and, when that returns
     * true, `PlanetObjects.splice(j, 1)`. `merged` is what `combine`
     * returned, and false when it was not called; the collection loses one
     * planet exactly when it is true.
     */
    method TestPair(i: nat, j: nat, sqrt: real -> real, ghost all: seq<Planet>, ghost orig: seq<Planet>, ghost kept: seq<nat>)
      returns (merged: bool, ghost rest: seq<nat>)
      requires IsSqrt(sqrt) && Distinct(planets) && AllProper(Bodies(planets)) && i < |planets| && j < |planets|
      requires forall k :: 0 <= k < |planets| ==> planets[k] in all
      requires Subsequence(planets, orig, kept)
      modifies this, all
      ensures Distinct(planets) && AllProper(Bodies(planets))
      ensures forall k :: 0 <= k < |planets| ==> planets[k] in all
      ensures merged ==> i < j
      ensures |planets| == old(|planets|) - if merged then 1 else 0
      ensures (Bodies(planets), if merged then j else j + 1) == Merging.ScanStep(old(Bodies(planets)), i, j, sqrt)
      ensures Subsequence(planets, orig, rest) && forall k :: 0 <= k <= i ==> rest[k] == kept[k]
    {
      ghost var bs := Bodies(planets);
      ghost var step := Merging.ScanStep(bs, i, j, sqrt);
      merged, rest := false, kept;
      if i < j {
        merged := TryCombine(i, j, sqrt);
        if merged {
          rest := RemoveAt(j, all, orig, kept);
          assert Bodies(planets) == step.0;
        } else {
          assert Bodies(planets) == bs == step.0;
        }
      }
    }

    /**
     * `PlanetObjects[i].combine(PlanetObjects[j])` inside the merge pass:
     * planet `i` takes the result of `Combine`, and what that means for the
     * rest of the pass — after an absorption the pass goes on from the same
     * position in the collection without planet `j`, otherwise from the next
     * position.
     */
    method TryCombine(i: nat, j: nat, sqrt: real -> real) returns (merged: bool)
      requires IsSqrt(sqrt) && Distinct(planets) && AllProper(Bodies(planets)) && i < j < |planets|
      modifies planets[i]
      ensures planets == old(planets)
      ensures merged == Merging.Overlap(old(Bodies(planets))[i], old(Bodies(planets))[j], sqrt)
      ensures Bodies(planets) ==
              old(Bodies(planets))[i := Merging.Combine(old(Bodies(planets))[i], old(Bodies(planets))[j], sqrt).1]
      ensures AllProper(Bodies(planets))
      ensures merged ==> Bodies(planets)[..j] + Bodies(planets)[j + 1..] == Merging.Absorb(old(Bodies(planets)), i, j, sqrt)
      ensures !merged ==> Bodies(planets) == old(Bodies(planets))
    {
      ghost var bs := Bodies(planets);
      merged := planets[i].Combine(planets[j], sqrt);
      assert forall k :: 0 <= k < |planets| && k != i ==> planets[k] != planets[i];
      assert forall k :: 0 <= k < |planets| && k != i ==> planets[k].Snapshot() == bs[k];
      UpdatedBodies(planets, bs, i, Merging.Combine(bs[i], bs[j], sqrt).1);
      Merging.AbsorbInPlace(bs, i, j, sqrt);
    }

    /** `PlanetObjects.splice(j, 1)`: planet `j` leaves the collection. */
    method RemoveAt(j: nat, ghost all: seq<Planet>, ghost orig: seq<Planet>, ghost kept: seq<nat>) returns (ghost rest: seq<nat>)
      requires j < |planets| && Distinct(planets) && AllProper(Bodies(planets))
      requires forall k :: 0 <= k < |planets| ==> planets[k] in all
      requires Subsequence(planets, orig, kept)
      modifies this
      ensures planets == old(planets[..j] + planets[j + 1..])
      ensures Bodies(planets) == old(Bodies(planets)[..j] + Bodies(planets)[j + 1..])
      ensures Distinct(planets) && AllProper(Bodies(planets))
      ensures forall k :: 0 <= k < |planets| ==> planets[k] in all
      ensures Subsequence(planets, orig, rest) && forall k :: 0 <= k < j ==> rest[k] == kept[k]
    {
      rest := kept[..j] + kept[j + 1..];
      SubsequenceSplice(planets, planets[..j] + planets[j + 1..], orig, kept, rest, j);
      Spliced(planets, planets[..j] + planets[j + 1..], all, j);
      planets := planets[..j] + planets[j + 1..];
    }

    /** The last pass of `Step`: `step` on every planet. */
    method StepAll(s: Settings)
      requires Distinct(planets)
      modifies planets
      ensures planets == old(planets)
      ensures Bodies(planets) == Integrator.AdvanceAll(old(Bodies(planets)), s)
    {
      ghost var bs := Bodies(planets);
      ghost var rows := Integrator.AdvanceAll(bs, s);
      var i := 0;
      while i < |planets|
        invariant 0 <= i <= |planets| == |bs| == |rows|
        invariant forall k :: 0 <= k < |planets| ==> planets[k].Snapshot() == if k < i then rows[k] else bs[k]
      {
        StepAt(i, bs, rows, s);
        i := i + 1;
      }
      BodiesAreRows(planets, rows);
    }

    /** `PlanetObjects[i].step()`, with the planets ahead of `i` already stepped. */
    method StepAt(i: nat, ghost bs: seq<Body>, ghost rows: seq<Body>, s: Settings)
      requires Distinct(planets) && i < |planets| == |bs| && rows == Integrator.AdvanceAll(bs, s)
      requires forall k :: 0 <= k < |planets| ==> planets[k].Snapshot() == if k < i then rows[k] else bs[k]
      modifies planets[i]
      ensures forall k :: 0 <= k < |planets| ==> planets[k].Snapshot() == if k < i + 1 then rows[k] else bs[k]
    {
      planets[i].Step(s);
      assert forall k :: 0 <= k < |planets| && k != i ==> planets[k] != planets[i];
      assert forall k :: 0 <= k < |planets| && k != i ==> planets[k].Snapshot() == old(planets[k].Snapshot());
    }

    /** The merge pass of `Step`, which runs only when merging is switched on. */
    method MergeIfOn(s: Settings, sqrt: real -> real) returns (ghost kept: seq<nat>, ghost merges: nat)
      requires IsSqrt(sqrt) && Valid()
      modifies this, planets
      ensures Valid() && forall k :: 0 <= k < |planets| ==> planets[k] in old(planets)
      ensures Bodies(planets) == if s.combinePlanets then Merging.MergePass(old(Bodies(planets)), sqrt) else old(Bodies(planets))
      ensures Subsequence(planets, old(planets), kept) && |planets| + merges == old(|planets|)
      ensures merges == if s.combinePlanets then Merging.MergeCount(old(Bodies(planets)), 0, 0, sqrt) else 0
    {
      if s.combinePlanets {
        kept, merges := CombineAll(sqrt);
      } else {
        SubsequenceOfItself(planets);
        kept, merges := Identity(|planets|), 0;
      }
    }

    /**
     * `Step`: one tick — the force pass, the merge pass when merging is on,
     * then `step` on every planet. The planets that remain keep their
     * order, and one planet is gone for each time `combine` returned true.
     */
    method Step(s: Settings, sqrt: real -> real) returns (ghost kept: seq<nat>, ghost merges: nat)
      requires IsSqrt(sqrt) && Valid() && ForceField.Apart(Bodies(planets), s)
      modifies this, planets
      ensures Valid() && forall k :: 0 <= k < |planets| ==> planets[k] in old(planets)
      ensures Bodies(planets) == StepSpec(old(Bodies(planets)), s, sqrt)
      ensures Subsequence(planets, old(planets), kept)
      ensures |planets| + merges == old(|planets|) && merges == StepMerges(old(Bodies(planets)), s, sqrt)
    {
      ghost var start := Bodies(planets);
      StepSpecProperties(start, s, sqrt);
      ApplyForces(s, sqrt);
      kept, merges := MergeIfOn(s, sqrt);
      ghost var merged := Bodies(planets);
      StepAll(s);
      assert Bodies(planets) == Integrator.AdvanceAll(merged, s);
    }
  }
}
