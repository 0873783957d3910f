/** Two small scenes worked through the steering and clamp of one tick
    with the default controller settings: a neighbour close enough to repel, and one
    only close enough to attract. */
module Scenes {
  import opened Vectors
  import opened Steering
  import opened SteeringLaws
  import opened Motion

  /** A boid at rest at `p`, and a neighbour at rest `x` units to its
      right. */
  function Pair(p: Vec2, x: real): seq<State> {
    [State(p, Zero), State(p.Plus(Vec2(x, 0.0)), Zero)]
  }

  /** The pair's neighbour lists for both default radii, given the distance
      `x` between the two boids. */
  lemma PairLists(p: Vec2, x: real, sqrt: real -> real)
    requires IsSqrt(sqrt) && 0.0 < x
    requires Distance(p, p.Plus(Vec2(x, 0.0)), sqrt) == x
    ensures x < 30.0 ==> Neighbours(Pair(p, x), p, 30.0, sqrt) == [State(p.Plus(Vec2(x, 0.0)), Zero)]
    ensures x < 20.0 ==> Neighbours(Pair(p, x), p, 20.0, sqrt) == [State(p.Plus(Vec2(x, 0.0)), Zero)]
    ensures 20.0 <= x ==> Neighbours(Pair(p, x), p, 20.0, sqrt) == []
  {
    PairNeighbours(p, Zero, State(p.Plus(Vec2(x, 0.0)), Zero), 30.0, sqrt);
    PairNeighbours(p, Zero, State(p.Plus(Vec2(x, 0.0)), Zero), 20.0, sqrt);
  }

  lemma DistanceAlongX(p: Vec2, x: real, sqrt: real -> real)
    requires IsSqrt(sqrt) && 0.0 < x
    ensures Distance(p, p.Plus(Vec2(x, 0.0)), sqrt) == x
  {
    assert p.Minus(p.Plus(Vec2(x, 0.0))) == Vec2(-x, 0.0);
    assert Vec2(-x, 0.0).NormSq() == x * x;
    RootOf(sqrt, x * x, x);
  }

  lemma OffsetAlongX(p: Vec2, x: real)
    ensures p.Plus(Vec2(x, 0.0)).Minus(p) == Vec2(x, 0.0)
  {
  }

  /** Cohesion for the pair `x` apart, with the default cohesion radius:
      the offset to the neighbour while it is within 30. */
  lemma PairCohesion(p: Vec2, x: real, sqrt: real -> real)
    requires IsSqrt(sqrt) && 0.0 < x < 30.0
    ensures CohesionOf(Pair(p, x), p, 30.0, sqrt) == Vec2(x, 0.0)
  {
    OffsetAlongX(p, x);
    DistanceAlongX(p, x, sqrt);
    PairLists(p, x, sqrt);
    OneNeighbourRules(Pair(p, x), State(p.Plus(Vec2(x, 0.0)), Zero), p, 30.0, sqrt);
  }

  /** Alignment for the pair at rest is zero, neighbour or not. */
  lemma PairAlignment(p: Vec2, x: real, sqrt: real -> real)
    requires IsSqrt(sqrt) && 0.0 < x < 30.0
    ensures AlignmentOf(Pair(p, x), p, 30.0, sqrt) == Zero
  {
    ClampAtRest(sqrt);
    DistanceAlongX(p, x, sqrt);
    PairLists(p, x, sqrt);
    OneNeighbourRules(Pair(p, x), State(p.Plus(Vec2(x, 0.0)), Zero), p, 30.0, sqrt);
  }

  lemma ClampAtRest(sqrt: real -> real)
    requires IsSqrt(sqrt)
    ensures ClampMagnitude(Zero, 1.0, sqrt) == Zero
  {
    assert Zero.NormSq() == 0.0;
  }

  /** Separation for the pair `x` apart, with the default separation
      radius: `-1/x` along the line to the neighbour while it is within 20
      (and farther than `NormalizeEpsilon`), nothing beyond. */
  lemma PairSeparation(p: Vec2, x: real, sqrt: real -> real)
    requires IsSqrt(sqrt) && NormalizeEpsilon < x
    ensures x < 20.0 ==> SeparationOf(Pair(p, x), p, 20.0, sqrt) == Vec2(-1.0 / x, 0.0)
    ensures 20.0 <= x ==> SeparationOf(Pair(p, x), p, 20.0, sqrt) == Zero
  {
    if x < 20.0 {
      RepulsionAlongX(p, x, sqrt);
      DistanceAlongX(p, x, sqrt);
      PairLists(p, x, sqrt);
      OneNeighbourSeparation(Pair(p, x), State(p.Plus(Vec2(x, 0.0)), Zero), p, 20.0, sqrt);
    } else {
      DistanceAlongX(p, x, sqrt);
      PairLists(p, x, sqrt);
    }
  }

  /** The repulsion term of a neighbour `x` to the right is `(-1/x, 0)`. */
  lemma RepulsionAlongX(p: Vec2, x: real, sqrt: real -> real)
    requires IsSqrt(sqrt) && NormalizeEpsilon < x
    ensures 0.0 < Distance(p, p.Plus(Vec2(x, 0.0)), sqrt)
    ensures Repulsion(p, p.Plus(Vec2(x, 0.0)), sqrt) == Vec2(-1.0 / x, 0.0)
  {
    DistanceAlongX(p, x, sqrt);
    var d := p.Minus(p.Plus(Vec2(x, 0.0)));
    assert d == Vec2(-x, 0.0);
    assert Magnitude(d, sqrt) == x;
    assert Normalized(d, sqrt) == Vec2(-1.0, 0.0);
  }

  lemma CombineDefaults(c: Vec2, a: Vec2, s: Vec2, d: Vec2)
    requires d == Vec2(30.0 * c.x + 1000.0 * a.x + 5000.0 * s.x, 30.0 * c.y + 1000.0 * a.y + 5000.0 * s.y)
    ensures Combine(c, a, s, Defaults) == d
  {
  }

  /** Clamping a vector along the x axis longer than `m` (and than
      `NormalizeEpsilon`) keeps its sign and sets its length to `m`. */
  lemma ClampOnAxis(a: real, m: real, sqrt: real -> real)
    requires IsSqrt(sqrt) && 0.0 <= m < a && NormalizeEpsilon < a
    ensures ClampMagnitude(Vec2(a, 0.0), m, sqrt) == Vec2(m, 0.0)
    ensures ClampMagnitude(Vec2(-a, 0.0), m, sqrt) == Vec2(-m, 0.0)
  {
    SquareMonotone(m, a);
    assert Vec2(a, 0.0).NormSq() == a * a;
    assert Vec2(-a, 0.0).NormSq() == a * a;
    ClampLong(Vec2(a, 0.0), m, a, sqrt);
    ClampLong(Vec2(-a, 0.0), m, a, sqrt);
    assert m / a * a == m;
  }

  /** A neighbour 5 units away, both at rest: separation (weight 5000,
      radius 20) overwhelms cohesion (weight 30) and the boid is pushed
      away at the full 650. */
  lemma CloseNeighbourRepels(p: Vec2, sqrt: real -> real)
    requires IsSqrt(sqrt)
    ensures Acceleration(Pair(p, 5.0), p, Defaults, sqrt) == Vec2(-650.0, 0.0)
  {
    CloseDesired(p, sqrt);
    ClampOnAxis(850.0, 650.0, sqrt);
  }

  lemma CloseDesired(p: Vec2, sqrt: real -> real)
    requires IsSqrt(sqrt)
    ensures Acceleration(Pair(p, 5.0), p, Defaults, sqrt) == ClampMagnitude(Vec2(-850.0, 0.0), 650.0, sqrt)
  {
    var c, s := Vec2(5.0, 0.0), Vec2(-1.0 / 5.0, 0.0);
    CombineDefaults(c, Zero, s, Vec2(-850.0, 0.0));
    PairCohesion(p, 5.0, sqrt);
    PairAlignment(p, 5.0, sqrt);
    PairSeparation(p, 5.0, sqrt);
    AccelerationFromRules(Pair(p, 5.0), p, Defaults, sqrt, c, Zero, s);
  }

  /** A neighbour 25 units away: outside the separation radius but inside
      the cohesion radius, so only cohesion acts and the boid is pulled
      toward it at the full 650. */
  lemma DistantNeighbourAttracts(p: Vec2, sqrt: real -> real)
    requires IsSqrt(sqrt)
    ensures Acceleration(Pair(p, 25.0), p, Defaults, sqrt) == Vec2(650.0, 0.0)
  {
    DistantDesired(p, sqrt);
    ClampOnAxis(750.0, 650.0, sqrt);
  }

  lemma DistantDesired(p: Vec2, sqrt: real -> real)
    requires IsSqrt(sqrt)
    ensures Acceleration(Pair(p, 25.0), p, Defaults, sqrt) == ClampMagnitude(Vec2(750.0, 0.0), 650.0, sqrt)
  {
    var c := Vec2(25.0, 0.0);
    CombineDefaults(c, Zero, Zero, Vec2(750.0, 0.0));
    PairCohesion(p, 25.0, sqrt);
    PairAlignment(p, 25.0, sqrt);
    PairSeparation(p, 25.0, sqrt);
    AccelerationFromRules(Pair(p, 25.0), p, Defaults, sqrt, c, Zero, Zero);
  }
}
