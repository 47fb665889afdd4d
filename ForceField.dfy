/**
 * Gravitational attraction between planets (`Planet.prototype.attract`) and
 * the force pass of a tick, which accumulates the pull of every other planet,
 * and with wrap-around attraction that of its eight neighbouring images too,
 * into each planet's acceleration.
 */
module ForceField {
  import opened World

  /**
   * The tile offsets the force pass uses for one ordered pair, in the order
   * `scripts.js` makes the calls.
   */
  function Tiles(wrap: bool): (r: seq<(int, int)>)
    ensures |r| == (if wrap then 9 else 1) && r[0] == (0, 0)
  {
    if wrap then [(0, 0), (-1, 0), (-1, -1), (0, -1), (1, -1), (1, 0), (1, 1), (0, 1), (-1, 1)]
    else [(0, 0)]
  }

  /** Without wrap-around one call with offset (0, 0); with it, each of the nine offsets of {-1,0,1}² exactly once. */
  lemma TilesCoverNeighbourhood()
    ensures Tiles(false) == [(0, 0)]
    ensures |Tiles(true)| == 9
    ensures forall a, b :: 0 <= a < b < 9 ==> Tiles(true)[a] != Tiles(true)[b]
    ensures forall tx: int, ty: int :: (tx, ty) in Tiles(true) <==> -1 <= tx <= 1 && -1 <= ty <= 1
  {
    var t := Tiles(true);
    forall tx: int, ty: int | -1 <= tx <= 1 && -1 <= ty <= 1
      ensures (tx, ty) in t
    {
      if tx == -1 {
        if ty == -1 { assert t[2] == (tx, ty); }
        else if ty == 0 { assert t[1] == (tx, ty); }
        else { assert t[8] == (tx, ty); }
      } else if tx == 0 {
        if ty == -1 { assert t[3] == (tx, ty); }
        else if ty == 0 { assert t[0] == (tx, ty); }
        else { assert t[7] == (tx, ty); }
      } else {
        if ty == -1 { assert t[4] == (tx, ty); }
        else if ty == 0 { assert t[5] == (tx, ty); }
        else { assert t[6] == (tx, ty); }
      }
    }
  }

  /** A coordinate shifted by `tile` copies of the canvas extent. */
  function Image(coordinate: real, tile: int, extent: real): (r: real)
    ensures tile == 0 ==> r == coordinate
    ensures 0.0 <= extent ==> (tile < 0 ==> r <= coordinate) && (0 < tile ==> coordinate <= r)
  {
    coordinate + tile as real * extent
  }

  /** The image of the other planet shifted by a tile offset does not sit on this planet. */
  predicate ImageApart(x: real, y: real, ox: real, oy: real, xTile: int, yTile: int, s: Settings)
  {
    Image(ox, xTile, s.width) != x || Image(oy, yTile, s.height) != y
  }

  /**
   * A pull is defined when its distance is not zero: always with constant
   * distance, otherwise when every image used lies off this planet.
   */
  predicate ApartFrom(a: Body, o: Body, s: Settings)
  {
    s.constantDistance ||
    forall k :: 0 <= k < |Tiles(s.wrapAttraction)| ==>
      ImageApart(a.x, a.y, o.x, o.y, Tiles(s.wrapAttraction)[k].0, Tiles(s.wrapAttraction)[k].1, s)
  }

  /** Whether two planets are apart depends on their positions only. */
  lemma ApartFromMoved(a: Body, o: Body, a': Body, o': Body, s: Settings)
    requires ApartFrom(a, o, s)
    requires a'.x == a.x && a'.y == a.y && o'.x == o.x && o'.y == o.y
    ensures ApartFrom(a', o', s)
  {
  }

  predicate Apart(bs: seq<Body>, s: Settings)
  {
    forall i, j :: 0 <= i < |bs| && 0 <= j < |bs| && i != j ==> ApartFrom(bs[i], bs[j], s)
  }

  /** The Euclidean length of a non-zero vector, through the square-root oracle. */
  function Distance(dx: real, dy: real, sqrt: real -> real): (d: real)
    requires IsSqrt(sqrt) && (dx != 0.0 || dy != 0.0)
    ensures 0.0 < d && Sq(d) == SqNorm(dx, dy)
  {
    SqNormPositive(dx, dy);
    SqrtPositive(sqrt, SqNorm(dx, dy));
    sqrt(SqNorm(dx, dy))
  }

  /** The clamped magnitude of the pull of mass `om` at squared distance `d2`. */
  function ClampedPull(s: Settings, om: real, d2: real): real
    requires d2 != 0.0
  {
    Min(Mul(s.gravitationalConstant, om) / d2, s.accelerationLimit)
  }

  /**
   * The acceleration one `attract` call adds: toward the image of the other
   * planet (position `ox`, `oy`, mass `om`) shifted by the tile offset.
   */
  function Pull(a: Body, ox: real, oy: real, om: real, xTile: int, yTile: int, s: Settings, sqrt: real -> real): (r: (real, real))
    requires IsSqrt(sqrt)
    requires s.constantDistance || ImageApart(a.x, a.y, ox, oy, xTile, yTile, s)
    ensures om == 0.0 && 0.0 <= s.accelerationLimit ==> r == (0.0, 0.0)
    ensures Image(ox, xTile, s.width) == a.x ==> r.0 == 0.0
    ensures Image(oy, yTile, s.height) == a.y ==> r.1 == 0.0
  {
    var otherX := Image(ox, xTile, s.width);
    var otherY := Image(oy, yTile, s.height);
    var distance := if s.constantDistance then 300.0 else Distance(otherX - a.x, otherY - a.y, sqrt);
    Along(Acceleration(s, om, distance), otherX - a.x, otherY - a.y, distance)
  }

  /** Newton's `G·m/distance²`, lowered to the acceleration limit when above it. */
  function Acceleration(s: Settings, om: real, distance: real): (r: real)
    requires distance != 0.0
    ensures 0.0 < Sq(distance)
    ensures r <= s.accelerationLimit
    ensures r == s.accelerationLimit || r == Mul(s.gravitationalConstant, om) / Sq(distance)
    ensures Mul(s.gravitationalConstant, om) / Sq(distance) <= s.accelerationLimit ==> r == Mul(s.gravitationalConstant, om) / Sq(distance)
    ensures om == 0.0 && 0.0 <= s.accelerationLimit ==> r == 0.0
  {
    SquarePositive(distance);
    var acceleration := Mul(s.gravitationalConstant, om) / Sq(distance);
    if acceleration > s.accelerationLimit then s.accelerationLimit else acceleration
  }

  /** The acceleration `magnitude · (dx, dy) / distance`, component by component as `attract` adds it. */
  function Along(magnitude: real, dx: real, dy: real, distance: real): (r: (real, real))
    requires distance != 0.0
    ensures magnitude == 0.0 ==> r == (0.0, 0.0)
    ensures dx == 0.0 ==> r.0 == 0.0
    ensures dy == 0.0 ==> r.1 == 0.0
  {
    assert magnitude == 0.0 ==> magnitude * dx == 0.0 && magnitude * dy == 0.0;
    (magnitude * dx / distance, magnitude * dy / distance)
  }

  /**
   * With Euclidean distance, a pull is Newton's `G·m/d²` clamped to the
   * acceleration limit in magnitude, and points along the line to the image,
   * toward it whenever that magnitude is not negative.
   */
  lemma PullIsClampedNewton(a: Body, ox: real, oy: real, om: real, xTile: int, yTile: int, s: Settings, sqrt: real -> real)
    requires IsSqrt(sqrt)
    requires !s.constantDistance && ImageApart(a.x, a.y, ox, oy, xTile, yTile, s)
    ensures var dx := Image(ox, xTile, s.width) - a.x;
            var dy := Image(oy, yTile, s.height) - a.y;
            var p := Pull(a, ox, oy, om, xTile, yTile, s, sqrt);
            0.0 < SqNorm(dx, dy) &&
            var m := ClampedPull(s, om, SqNorm(dx, dy));
            SqNorm(p.0, p.1) == Sq(m) &&
            Mul(p.0, dy) == Mul(p.1, dx) &&
            (0.0 <= m ==> 0.0 <= Mul(p.0, dx) + Mul(p.1, dy))
  {
    var dx := Image(ox, xTile, s.width) - a.x;
    var dy := Image(oy, yTile, s.height) - a.y;
    SqNormPositive(dx, dy);
    var d := Distance(dx, dy, sqrt);
    var m := ClampedPull(s, om, SqNorm(dx, dy));
    PullEuclidean(a, ox, oy, om, xTile, yTile, s, sqrt);
    AlongGeometry(m, dx, dy, d);
  }

  /** With Euclidean distance, `Pull` is `Along` at the clamped Newton magnitude and the distance. */
  lemma PullEuclidean(a: Body, ox: real, oy: real, om: real, xTile: int, yTile: int, s: Settings, sqrt: real -> real)
    requires IsSqrt(sqrt)
    requires !s.constantDistance && ImageApart(a.x, a.y, ox, oy, xTile, yTile, s)
    ensures var dx := Image(ox, xTile, s.width) - a.x;
            var dy := Image(oy, yTile, s.height) - a.y;
            0.0 < SqNorm(dx, dy) &&
            Pull(a, ox, oy, om, xTile, yTile, s, sqrt) ==
              Along(ClampedPull(s, om, SqNorm(dx, dy)), dx, dy, Distance(dx, dy, sqrt))
  {
    var dx := Image(ox, xTile, s.width) - a.x;
    var dy := Image(oy, yTile, s.height) - a.y;
    SqNormPositive(dx, dy);
    var d := Distance(dx, dy, sqrt);
    assert Pull(a, ox, oy, om, xTile, yTile, s, sqrt) == Along(Acceleration(s, om, d), dx, dy, d);
    ClampMatches(s, om, d, SqNorm(dx, dy));
    assert Acceleration(s, om, d) == ClampedPull(s, om, SqNorm(dx, dy));
  }

  /**
   * A vector of magnitude `m` along (dx, dy) of length `d`: its squared length
   * is m², it is parallel to (dx, dy), and it points toward it when m >= 0.
   */
  lemma AlongGeometry(m: real, dx: real, dy: real, d: real)
    requires 0.0 < d && Sq(d) == SqNorm(dx, dy)
    ensures var p := Along(m, dx, dy, d);
            SqNorm(p.0, p.1) == Sq(m) &&
            Mul(p.0, dy) == Mul(p.1, dx) &&
            (0.0 <= m ==> 0.0 <= Mul(p.0, dx) + Mul(p.1, dy))
  {
    var d2 := SqNorm(dx, dy);
    var u := m / d;
    DivScale(m, dx, d);
    DivScale(m, dy, d);
    var p := Along(m, dx, dy, d);
    assert p == (Mul(u, dx), Mul(u, dy));
    ScaledNorm(u, dx, dy);
    assert Sq(u) * d2 == Sq(m) by {
      assert Mul(u, d) == m;
      SqOfProduct(u, d);
    }
    assert Mul(p.0, dy) == u * dx * dy == Mul(p.1, dx);
    assert Mul(p.0, dx) + Mul(p.1, dy) == u * d2;
    if 0.0 <= m {
      SqNormPositive(dx, dy);
      assert 0.0 <= u;
      assert 0.0 <= u * d2;
    }
  }

  /** The clamped acceleration of `attract` is `ClampedPull` at the squared distance. */
  lemma ClampMatches(s: Settings, om: real, d: real, d2: real)
    requires d2 != 0.0 && Sq(d) == d2
    ensures d != 0.0 && ClampedPull(s, om, d2) == Acceleration(s, om, d)
  {
  }

  /** With constant distance the pull is the clamped `G·m/300²` times the offset to the image over 300. */
  lemma ConstantDistancePull(a: Body, ox: real, oy: real, om: real, xTile: int, yTile: int, s: Settings, sqrt: real -> real)
    requires IsSqrt(sqrt) && s.constantDistance
    ensures var dx := Image(ox, xTile, s.width) - a.x;
            var dy := Image(oy, yTile, s.height) - a.y;
            var m := ClampedPull(s, om, 90000.0);
            Pull(a, ox, oy, om, xTile, yTile, s, sqrt) == Along(m, dx, dy, 300.0) &&
            m <= s.accelerationLimit
  {
    assert Sq(300.0) == 90000.0;
    ClampMatches(s, om, 300.0, 90000.0);
  }

  /** `attract`: the pull is added to this planet's accumulator and nothing else changes. */
  function Attract(a: Body, ox: real, oy: real, om: real, xTile: int, yTile: int, s: Settings, sqrt: real -> real): (r: Body)
    requires IsSqrt(sqrt)
    requires s.constantDistance || ImageApart(a.x, a.y, ox, oy, xTile, yTile, s)
    ensures SameButAcceleration(r, a)
  {
    var p := Pull(a, ox, oy, om, xTile, yTile, s, sqrt);
    a.(xAcceleration := a.xAcceleration + p.0, yAcceleration := a.yAcceleration + p.1)
  }

  /** The `attract` calls for one ordered pair, one per tile offset, in order: the last offset is applied last. */
  function AttractTiles(a: Body, ox: real, oy: real, om: real, tiles: seq<(int, int)>, s: Settings, sqrt: real -> real): (r: Body)
    requires IsSqrt(sqrt)
    requires s.constantDistance || forall k :: 0 <= k < |tiles| ==> ImageApart(a.x, a.y, ox, oy, tiles[k].0, tiles[k].1, s)
    ensures SameButAcceleration(r, a)
    decreases |tiles|
  {
    if tiles == [] then a
    else
      var last := tiles[|tiles| - 1];
      Attract(AttractTiles(a, ox, oy, om, tiles[..|tiles| - 1], s, sqrt), ox, oy, om, last.0, last.1, s, sqrt)
  }

  /** Taking one more tile offset adds the pull at that offset last. */
  lemma AttractTilesSnoc(a: Body, ox: real, oy: real, om: real, tiles: seq<(int, int)>, k: nat, s: Settings, sqrt: real -> real)
    requires IsSqrt(sqrt) && k < |tiles|
    requires s.constantDistance || forall n :: 0 <= n < |tiles| ==> ImageApart(a.x, a.y, ox, oy, tiles[n].0, tiles[n].1, s)
    ensures AttractTiles(a, ox, oy, om, tiles[..k + 1], s, sqrt) ==
            Attract(AttractTiles(a, ox, oy, om, tiles[..k], s, sqrt), ox, oy, om, tiles[k].0, tiles[k].1, s, sqrt)
  {
    assert tiles[..k + 1][..k] == tiles[..k];
  }

  /**
   * Planet `i` (currently `a`) after the inner loop of the force pass has run
   * over the partners `0 .. upTo-1` of `bs`, skipping itself.
   */
  function AttractRow(a: Body, bs: seq<Body>, i: nat, upTo: nat, s: Settings, sqrt: real -> real): (r: Body)
    requires IsSqrt(sqrt) && Apart(bs, s)
    requires i < |bs| && upTo <= |bs| && a.x == bs[i].x && a.y == bs[i].y
    ensures SameButAcceleration(r, a)
    decreases upTo
  {
    if upTo == 0 then a
    else
      var before := AttractRow(a, bs, i, upTo - 1, s, sqrt);
      if upTo - 1 != i then
        var o := bs[upTo - 1];
        assert ApartFrom(bs[i], o, s);
        AttractTiles(before, o.x, o.y, o.mass, Tiles(s.wrapAttraction), s, sqrt)
      else before
  }

  /**
   * The force pass of a tick: every planet accumulates the pulls of all the
   * others. Positions, velocities, sizes and masses are untouched.
   */
  function ForceSpec(bs: seq<Body>, s: Settings, sqrt: real -> real): (r: seq<Body>)
    requires IsSqrt(sqrt) && Apart(bs, s)
    ensures |r| == |bs|
    ensures forall k {:trigger AttractRow(bs[k], bs, k, |bs|, s, sqrt)} :: 0 <= k < |bs| ==> r[k] == AttractRow(bs[k], bs, k, |bs|, s, sqrt)
    ensures forall k :: 0 <= k < |bs| ==> SameButAcceleration(r[k], bs[k])
    ensures AllProper(bs) ==> AllProper(r)
    ensures AllInWorld(bs, s) ==> AllInWorld(r, s)
  {
    seq(|bs|, k requires 0 <= k < |bs| => AttractRow(bs[k], bs, k, |bs|, s, sqrt))
  }

  /** The force pass changes only accelerations, so mass and momentum are conserved. */
  lemma ForceSpecConserves(bs: seq<Body>, s: Settings, sqrt: real -> real, q: Quantity)
    requires IsSqrt(sqrt) && Apart(bs, s)
    ensures Total(ForceSpec(bs, s, sqrt), q) == Total(bs, q)
  {
    var r := ForceSpec(bs, s, sqrt);
    forall k | 0 <= k < |r|
      ensures Amount(r[k], q) == Amount(bs[k], q)
    {
      assert SameButAcceleration(r[k], bs[k]);
    }
    TotalPointwise(r, bs, q);
  }

  /** The settings of the two-planet scenario below. */
  function ScenarioSettings(constantDistance: bool): Settings
  {
    Settings(800.0, 800.0, 2, 5.0, 5.0, 0.0, 1.0, false, false, constantDistance, 10.0, 1000.0)
  }

  /** Two planets of radius 5 (mass 25) at rest, at (0, 0) and (`gap`, 0). */
  function ScenarioPlanets(gap: real): (bs: seq<Body>)
    ensures |bs| == 2
  {
    [Body(0.0, 0.0, 0.0, 0.0, 0.0, 0.0, 5.0, 25.0, 0.0),
     Body(gap, 0.0, 0.0, 0.0, 0.0, 0.0, 5.0, 25.0, 0.0)]
  }

  /** Without wrap-around each planet of the scenario takes the one direct pull of the other. */
  lemma ScenarioRows(gap: real, constantDistance: bool, sqrt: real -> real)
    requires IsSqrt(sqrt) && gap != 0.0
    ensures var bs := ScenarioPlanets(gap);
            var s := ScenarioSettings(constantDistance);
            Apart(bs, s) &&
            ForceSpec(bs, s, sqrt)[0] == Attract(bs[0], gap, 0.0, 25.0, 0, 0, s, sqrt) &&
            ForceSpec(bs, s, sqrt)[1] == Attract(bs[1], 0.0, 0.0, 25.0, 0, 0, s, sqrt)
  {
    var bs := ScenarioPlanets(gap);
    var s := ScenarioSettings(constantDistance);
    assert Apart(bs, s);
    assert ForceSpec(bs, s, sqrt)[0] == Attract(bs[0], gap, 0.0, 25.0, 0, 0, s, sqrt) by {
      assert AttractRow(bs[0], bs, 0, 1, s, sqrt) == bs[0];
      assert AttractTiles(bs[0], gap, 0.0, 25.0, [(0, 0)], s, sqrt) == Attract(bs[0], gap, 0.0, 25.0, 0, 0, s, sqrt);
    }
    assert ForceSpec(bs, s, sqrt)[1] == Attract(bs[1], 0.0, 0.0, 25.0, 0, 0, s, sqrt) by {
      assert AttractRow(bs[1], bs, 1, 1, s, sqrt) == AttractTiles(bs[1], 0.0, 0.0, 25.0, [(0, 0)], s, sqrt);
    }
  }

  /** The pull of the second scenario planet, 10 to the right, on the first. */
  lemma ScenarioPullRight(sqrt: real -> real)
    requires IsSqrt(sqrt)
    ensures var a := Attract(ScenarioPlanets(10.0)[0], 10.0, 0.0, 25.0, 0, 0, ScenarioSettings(false), sqrt);
            a.xAcceleration == 0.25 && a.yAcceleration == 0.0
  {
    var s := ScenarioSettings(false);
    SqrtOfSquare(sqrt, 10.0);
    assert Distance(10.0, 0.0, sqrt) == 10.0;
    assert Acceleration(s, 25.0, 10.0) == 0.25;
  }

  /** The pull of the first scenario planet, 10 to the left, on the second. */
  lemma ScenarioPullLeft(sqrt: real -> real)
    requires IsSqrt(sqrt)
    ensures var a := Attract(ScenarioPlanets(10.0)[1], 0.0, 0.0, 25.0, 0, 0, ScenarioSettings(false), sqrt);
            a.xAcceleration == -0.25 && a.yAcceleration == 0.0
  {
    var s := ScenarioSettings(false);
    SqrtOfSquare(sqrt, 10.0);
    assert SqNorm(-10.0, 0.0) == Sq(10.0);
    assert Distance(-10.0, 0.0, sqrt) == 10.0;
    assert Acceleration(s, 25.0, 10.0) == 0.25;
  }

  /**
   * The two scenario planets 10 apart with G = 1 and no wrap-around: after
   * the force pass the first accelerates by (0.25, 0) toward the second and
   * the second by (-0.25, 0).
   */
  lemma TwoPlanetScenario(sqrt: real -> real)
    requires IsSqrt(sqrt)
    ensures var bs := ScenarioPlanets(10.0);
            Apart(bs, ScenarioSettings(false)) &&
            var r := ForceSpec(bs, ScenarioSettings(false), sqrt);
            r[0].xAcceleration == 0.25 && r[0].yAcceleration == 0.0 &&
            r[1].xAcceleration == -0.25 && r[1].yAcceleration == 0.0
  {
    ScenarioRows(10.0, false, sqrt);
    ScenarioPullRight(sqrt);
    ScenarioPullLeft(sqrt);
  }

  /**
   * With constant distance the same planets one unit apart feel the pull of
   * distance 300: 25/300², times the offset 1 over 300.
   */
  lemma ConstantDistanceScenario(sqrt: real -> real)
    requires IsSqrt(sqrt)
    ensures var bs := ScenarioPlanets(1.0);
            Apart(bs, ScenarioSettings(true)) &&
            var r := ForceSpec(bs, ScenarioSettings(true), sqrt);
            r[0].xAcceleration == 25.0 / 90000.0 / 300.0 && r[0].yAcceleration == 0.0
  {
    ScenarioRows(1.0, true, sqrt);
    ScenarioPullConstant(sqrt);
  }

  /** The pull of the second scenario planet, one unit to the right, on the first, at constant distance. */
  lemma ScenarioPullConstant(sqrt: real -> real)
    requires IsSqrt(sqrt)
    ensures var a := Attract(ScenarioPlanets(1.0)[0], 1.0, 0.0, 25.0, 0, 0, ScenarioSettings(true), sqrt);
            a.xAcceleration == 25.0 / 90000.0 / 300.0 && a.yAcceleration == 0.0
  {
    var s := ScenarioSettings(true);
    ConstantDistancePull(ScenarioPlanets(1.0)[0], 1.0, 0.0, 25.0, 0, 0, s, sqrt);
    assert ClampedPull(s, 25.0, 90000.0) == 25.0 / 90000.0;
  }
}
