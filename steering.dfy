/** The three steering rules of a boid (Assets/Scripts/Boid.cs, `Cohesion`,
    `Alignment`, `Separation`) as functions of a snapshot of the registry of
    all boids' kinematic states.

    Each rule scans the whole registry and keeps the entries whose distance
    `dist` from the boid satisfies `0 < dist < radius` (`IsNeighbour`), in
    registry order (`Neighbours`). */
module Steering {
  import opened Vectors

  /** What one registry entry (a `Rigidbody2D`) exposes to the rules. */
  datatype State = State(position: Vec2, velocity: Vec2)

  /** Unity's `Vector2.Distance(p, q)`, the length of `p - q`. */
  function Distance(p: Vec2, q: Vec2, sqrt: real -> real): (d: real)
    requires IsSqrt(sqrt)
    ensures 0.0 <= d
  {
    Magnitude(p.Minus(q), sqrt)
  }

  /** Two positions are at distance zero exactly when they coincide. */
  lemma DistanceZero(p: Vec2, q: Vec2, sqrt: real -> real)
    requires IsSqrt(sqrt)
    ensures Distance(p, q, sqrt) == 0.0 <==> p == q
  {
    var v := p.Minus(q);
    if p == q {
      assert v == Zero;
      RootOfZero(sqrt);
    } else {
      MagnitudeSquared(v, sqrt);
      NormSqPositive(v);
      if Magnitude(v, sqrt) == 0.0 {
        assert false;
      }
    }
  }

  /** The test every rule applies to a registry entry at `q`:
      `dist < radius && dist > 0`. */
  predicate IsNeighbour(self: Vec2, q: Vec2, radius: real, sqrt: real -> real)
    requires IsSqrt(sqrt)
    ensures IsNeighbour(self, q, radius, sqrt) ==> self != q && 0.0 < radius
  {
    var dist := Distance(self, q, sqrt);
    DistanceZero(self, q, sqrt);
    dist < radius && dist > 0.0
  }

  /** Distance does not depend on the order of its arguments, so two boids
      pass each other's neighbour test for the same radius together. */
  lemma NeighbourSymmetric(p: Vec2, q: Vec2, radius: real, sqrt: real -> real)
    requires IsSqrt(sqrt)
    ensures Distance(p, q, sqrt) == Distance(q, p, sqrt)
    ensures IsNeighbour(p, q, radius, sqrt) <==> IsNeighbour(q, p, radius, sqrt)
  {
    assert q.Minus(p) == p.Minus(q).Scale(-1.0);
    ScaleNormSq(p.Minus(q), -1.0);
    assert q.Minus(p).NormSq() == p.Minus(q).NormSq();
  }

  /** A boid never counts an entry at its own position, in particular its
      own entry in the registry. */
  lemma SelfNotNeighbour(self: Vec2, radius: real, sqrt: real -> real)
    requires IsSqrt(sqrt)
    ensures !IsNeighbour(self, self, radius, sqrt)
  {
    OffsetToSelf(self);
    RootOfZero(sqrt);
  }

  /** The registry entries that count as neighbours of a boid at `self`, in
      registry order (`NeighboursMembers`). */
  function Neighbours(reg: seq<State>, self: Vec2, radius: real, sqrt: real -> real): (n: seq<State>)
    requires IsSqrt(sqrt)
    ensures |n| <= |reg|
    decreases |reg|
  {
    if reg == [] then []
    else
      var init, last := reg[..|reg| - 1], reg[|reg| - 1];
      assert reg == init + [last];
      Neighbours(init, self, radius, sqrt)
        + (if IsNeighbour(self, last.position, radius, sqrt) then [last] else [])
  }

  /** An entry is in the neighbour list exactly when it is in the registry
      and passes the distance test. */
  lemma {:induction false} NeighboursMembers(reg: seq<State>, self: Vec2, radius: real, sqrt: real -> real)
    requires IsSqrt(sqrt)
    ensures forall s :: (s in Neighbours(reg, self, radius, sqrt)
      <==> s in reg && IsNeighbour(self, s.position, radius, sqrt))
    decreases |reg|
  {
    if reg != [] {
      var init, last := reg[..|reg| - 1], reg[|reg| - 1];
      assert reg == init + [last];
      NeighboursMembers(init, self, radius, sqrt);
    }
  }

  function SumPositions(n: seq<State>): Vec2
    decreases |n|
  {
    if n == [] then Zero else SumPositions(n[..|n| - 1]).Plus(n[|n| - 1].position)
  }

  function SumVelocities(n: seq<State>): Vec2
    decreases |n|
  {
    if n == [] then Zero else SumVelocities(n[..|n| - 1]).Plus(n[|n| - 1].velocity)
  }

  /** The separation term `(self - q).normalized / dist` of one neighbour at
      `q`. Closer than `NormalizeEpsilon`, `normalized` gives the zero
      vector and so does the term; `RepulsionPointsAway` states what it is
      beyond that. */
  function Repulsion(self: Vec2, q: Vec2, sqrt: real -> real): (t: Vec2)
    requires IsSqrt(sqrt) && 0.0 < Distance(self, q, sqrt)
    ensures Distance(self, q, sqrt) <= NormalizeEpsilon ==> t == Zero
  {
    Normalized(self.Minus(q), sqrt).Div(Distance(self, q, sqrt))
  }

  /** Farther than `NormalizeEpsilon`, the separation term of a neighbour
      at `q` is `(self - q) / dist²`: it points from the neighbour toward the
      boid and its component along that direction is `1 / dist`. */
  lemma RepulsionPointsAway(self: Vec2, q: Vec2, sqrt: real -> real)
    requires IsSqrt(sqrt) && NormalizeEpsilon < Distance(self, q, sqrt)
    ensures var dist := Distance(self, q, sqrt);
      var t := Repulsion(self, q, sqrt);
      t.Dot(self.Minus(q)) == 1.0 && t.Scale(dist * dist) == self.Minus(q)
  {
    Unnormalize(Normalized(self.Minus(q), sqrt), self.Minus(q), Distance(self, q, sqrt));
  }

  /** Dividing a unit vector `u` with `u * dist == d` by `dist` gives a
      vector whose product with `d` is 1 and that is `d / dist²`. */
  lemma Unnormalize(u: Vec2, d: Vec2, dist: real)
    requires 0.0 < dist && u.NormSq() == 1.0 && u.Scale(dist) == d
    ensures u.Div(dist).Dot(d) == 1.0
    ensures u.Div(dist).Scale(dist * dist) == d
  {
    var t := u.Div(dist);
    assert t == u.Scale(1.0 / dist);
    assert t.Dot(d) == (1.0 / dist) * dist * u.NormSq();
    assert (1.0 / dist) * dist == 1.0;
    assert t.Scale(dist * dist) == u.Scale((1.0 / dist) * (dist * dist));
    assert (1.0 / dist) * (dist * dist) == dist;
  }

  function SumRepulsions(self: Vec2, n: seq<State>, sqrt: real -> real): Vec2
    requires IsSqrt(sqrt)
    requires forall s :: s in n ==> 0.0 < Distance(self, s.position, sqrt)
    decreases |n|
  {
    if n == [] then Zero
    else SumRepulsions(self, n[..|n| - 1], sqrt).Plus(Repulsion(self, n[|n| - 1].position, sqrt))
  }

  /** `Cohesion` (Boid.cs:75-100): the mean position of the neighbours within
      `radius`, minus the boid's own position; the zero vector when no entry
      qualifies. */
  function CohesionOf(reg: seq<State>, self: Vec2, radius: real, sqrt: real -> real): (r: Vec2)
    requires IsSqrt(sqrt)
    ensures var n := Neighbours(reg, self, radius, sqrt);
      |n| > 0 ==> self.Plus(r).Scale(|n| as real) == SumPositions(n)
  {
    var n := Neighbours(reg, self, radius, sqrt);
    if |n| == 0 then Zero
    else
      MeanTimesCount(SumPositions(n), |n| as real, self);
      SumPositions(n).Div(|n| as real).Minus(self)
  }

  lemma MeanTimesCount(sum: Vec2, k: real, self: Vec2)
    requires 0.0 < k
    ensures self.Plus(sum.Div(k).Minus(self)).Scale(k) == sum
  {
    assert self.Plus(sum.Div(k).Minus(self)) == sum.Div(k);
    assert sum.x / k * k == sum.x;
    assert sum.y / k * k == sum.y;
  }

  /** `Alignment` (Boid.cs:103-128), over the cohesion radius: the mean
      velocity of the neighbours, clamped to length 1; the zero vector when
      no entry qualifies. */
  function AlignmentOf(reg: seq<State>, self: Vec2, radius: real, sqrt: real -> real): (r: Vec2)
    requires IsSqrt(sqrt)
    ensures r.NormSq() <= 1.0
    ensures var n := Neighbours(reg, self, radius, sqrt);
      |n| > 0 && SumVelocities(n).Div(|n| as real).NormSq() <= 1.0 ==>
        r == SumVelocities(n).Div(|n| as real)
  {
    var n := Neighbours(reg, self, radius, sqrt);
    if |n| == 0 then Zero
    else ClampMagnitude(SumVelocities(n).Div(|n| as real), 1.0, sqrt)
  }

  /** `Separation` (Boid.cs:131-154): the mean of the neighbours'
      `Repulsion` terms within `radius`; the zero vector when no entry
      qualifies. */
  function SeparationOf(reg: seq<State>, self: Vec2, radius: real, sqrt: real -> real): (r: Vec2)
    requires IsSqrt(sqrt)
    ensures var n := Neighbours(reg, self, radius, sqrt);
      && (forall s :: s in n ==> 0.0 < Distance(self, s.position, sqrt))
      && (|n| > 0 ==> r.Scale(|n| as real) == SumRepulsions(self, n, sqrt))
  {
    var n := Neighbours(reg, self, radius, sqrt);
    NeighboursMembers(reg, self, radius, sqrt);
    if |n| == 0 then Zero
    else
      DivThenScale(SumRepulsions(self, n, sqrt), |n| as real);
      SumRepulsions(self, n, sqrt).Div(|n| as real)
  }
}
