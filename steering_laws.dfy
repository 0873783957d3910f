/** Properties of the steering rules that relate several registries: which
    entries the rules ignore, how one scan step extends the neighbour list,
    and what the rules give in small concrete scenes. */
module SteeringLaws {
  import opened Vectors
  import opened Steering

  /** The neighbours of a concatenation are the neighbours of each part, in
      order. */
  lemma {:induction false} NeighboursAppend(a: seq<State>, b: seq<State>, self: Vec2, radius: real, sqrt: real -> real)
    requires IsSqrt(sqrt)
    ensures Neighbours(a + b, self, radius, sqrt)
         == Neighbours(a, self, radius, sqrt) + Neighbours(b, self, radius, sqrt)
    decreases |b|
  {
    if b == [] {
      assert a + b == a;
    } else {
      var init, last := b[..|b| - 1], b[|b| - 1];
      assert (a + b)[..|a + b| - 1] == a + init;
      assert (a + b)[|a + b| - 1] == last;
      NeighboursAppend(a, init, self, radius, sqrt);
    }
  }

  /** One step of a scan over the registry: the neighbours among the first
      `i + 1` entries are those among the first `i`, plus entry `i` when it
      qualifies. */
  lemma NeighboursStep(reg: seq<State>, i: int, self: Vec2, radius: real, sqrt: real -> real)
    requires IsSqrt(sqrt) && 0 <= i < |reg|
    ensures IsNeighbour(self, reg[i].position, radius, sqrt) ==>
      Neighbours(reg[..i + 1], self, radius, sqrt) == Neighbours(reg[..i], self, radius, sqrt) + [reg[i]]
    ensures !IsNeighbour(self, reg[i].position, radius, sqrt) ==>
      Neighbours(reg[..i + 1], self, radius, sqrt) == Neighbours(reg[..i], self, radius, sqrt)
  {
    assert reg[..i + 1][..i] == reg[..i];
    assert Neighbours(reg[..i], self, radius, sqrt) + [] == Neighbours(reg[..i], self, radius, sqrt);
  }

  lemma SumPositionsSnoc(n: seq<State>, s: State)
    ensures SumPositions(n + [s]) == SumPositions(n).Plus(s.position)
  {
    assert (n + [s])[..|n|] == n;
  }

  lemma SumVelocitiesSnoc(n: seq<State>, s: State)
    ensures SumVelocities(n + [s]) == SumVelocities(n).Plus(s.velocity)
  {
    assert (n + [s])[..|n|] == n;
  }

  lemma SumRepulsionsSnoc(self: Vec2, n: seq<State>, s: State, sqrt: real -> real)
    requires IsSqrt(sqrt)
    requires forall t :: t in n + [s] ==> 0.0 < Distance(self, t.position, sqrt)
    ensures SumRepulsions(self, n + [s], sqrt)
         == SumRepulsions(self, n, sqrt).Plus(Repulsion(self, s.position, sqrt))
  {
    assert (n + [s])[..|n|] == n;
  }

  /** An entry that fails the distance test can be removed from anywhere in
      the registry without changing its neighbour list. */
  lemma NeighboursSkip(a: seq<State>, x: State, b: seq<State>, self: Vec2, radius: real, sqrt: real -> real)
    requires IsSqrt(sqrt) && !IsNeighbour(self, x.position, radius, sqrt)
    ensures Neighbours(a + [x] + b, self, radius, sqrt) == Neighbours(a + b, self, radius, sqrt)
  {
    NeighboursAppend(a + [x], b, self, radius, sqrt);
    NeighboursAppend(a, [x], self, radius, sqrt);
    NeighboursAppend(a, b, self, radius, sqrt);
    assert [x][..0] == [];
  }

  /** None of the three rules sees an entry that fails the distance test. */
  lemma IgnoresNonNeighbour(a: seq<State>, x: State, b: seq<State>, self: Vec2, radius: real, sqrt: real -> real)
    requires IsSqrt(sqrt) && !IsNeighbour(self, x.position, radius, sqrt)
    ensures CohesionOf(a + [x] + b, self, radius, sqrt) == CohesionOf(a + b, self, radius, sqrt)
    ensures AlignmentOf(a + [x] + b, self, radius, sqrt) == AlignmentOf(a + b, self, radius, sqrt)
    ensures SeparationOf(a + [x] + b, self, radius, sqrt) == SeparationOf(a + b, self, radius, sqrt)
  {
    NeighboursSkip(a, x, b, self, radius, sqrt);
  }

  /** `dist > 0` keeps a boid's own registry entry (or any entry at its
      exact position) out of all three rules, whatever its velocity. */
  lemma IgnoresOwnEntry(a: seq<State>, v: Vec2, b: seq<State>, self: Vec2, radius: real, sqrt: real -> real)
    requires IsSqrt(sqrt)
    ensures CohesionOf(a + [State(self, v)] + b, self, radius, sqrt) == CohesionOf(a + b, self, radius, sqrt)
    ensures AlignmentOf(a + [State(self, v)] + b, self, radius, sqrt) == AlignmentOf(a + b, self, radius, sqrt)
    ensures SeparationOf(a + [State(self, v)] + b, self, radius, sqrt) == SeparationOf(a + b, self, radius, sqrt)
  {
    SelfNotNeighbour(self, radius, sqrt);
    IgnoresNonNeighbour(a, State(self, v), b, self, radius, sqrt);
  }

  /** Each rule gives the zero vector when no registry entry passes its
      distance test. */
  lemma NoNeighboursNoSteering(reg: seq<State>, self: Vec2, radius: real, sqrt: real -> real)
    requires IsSqrt(sqrt)
    requires forall s :: s in reg ==> !IsNeighbour(self, s.position, radius, sqrt)
    ensures CohesionOf(reg, self, radius, sqrt) == Zero
    ensures AlignmentOf(reg, self, radius, sqrt) == Zero
    ensures SeparationOf(reg, self, radius, sqrt) == Zero
  {
    NoneQualify(reg, self, radius, sqrt);
  }

  lemma {:induction false} NoneQualify(reg: seq<State>, self: Vec2, radius: real, sqrt: real -> real)
    requires IsSqrt(sqrt)
    requires forall s :: s in reg ==> !IsNeighbour(self, s.position, radius, sqrt)
    ensures Neighbours(reg, self, radius, sqrt) == []
    decreases |reg|
  {
    if reg != [] {
      var init := reg[..|reg| - 1];
      assert forall s :: s in init ==> s in reg;
      assert reg[|reg| - 1] in reg;
      NoneQualify(init, self, radius, sqrt);
    }
  }

  /** With a single neighbour farther than `NormalizeEpsilon`, separation
      points away from it: its dot product with `self - q` is exactly 1. */
  lemma SingleNeighbourRepels(reg: seq<State>, x: State, self: Vec2, radius: real, sqrt: real -> real)
    requires IsSqrt(sqrt)
    requires Neighbours(reg, self, radius, sqrt) == [x]
    requires NormalizeEpsilon < Distance(self, x.position, sqrt)
    ensures SeparationOf(reg, self, radius, sqrt).Dot(self.Minus(x.position)) == 1.0
  {
    OneNeighbourRules(reg, x, self, radius, sqrt);
    RepulsionPointsAway(self, x.position, sqrt);
  }

  /** A boid's own entry followed by one other entry: the neighbour list is
      that other entry exactly when it passes the distance test. */
  lemma PairNeighbours(self: Vec2, v: Vec2, x: State, radius: real, sqrt: real -> real)
    requires IsSqrt(sqrt)
    ensures Neighbours([State(self, v), x], self, radius, sqrt)
         == if IsNeighbour(self, x.position, radius, sqrt) then [x] else []
  {
    OwnEntryAlone(self, v, radius, sqrt);
    PairSplit(self, v, x, radius, sqrt);
  }

  lemma OwnEntryAlone(self: Vec2, v: Vec2, radius: real, sqrt: real -> real)
    requires IsSqrt(sqrt)
    ensures Neighbours([State(self, v)], self, radius, sqrt) == []
  {
    SelfNotNeighbour(self, radius, sqrt);
    assert [State(self, v)][..0] == [];
  }

  lemma PairSplit(self: Vec2, v: Vec2, x: State, radius: real, sqrt: real -> real)
    requires IsSqrt(sqrt)
    ensures Neighbours([State(self, v), x], self, radius, sqrt)
         == Neighbours([State(self, v)], self, radius, sqrt)
            + if IsNeighbour(self, x.position, radius, sqrt) then [x] else []
  {
    assert [State(self, v), x][..1] == [State(self, v)];
  }

  /** With exactly one neighbour `x`, cohesion is the offset to `x`,
      alignment is `x`'s velocity clamped to length 1, and separation is
      `x`'s repulsion term. */
  lemma OneNeighbourRules(reg: seq<State>, x: State, self: Vec2, radius: real, sqrt: real -> real)
    requires IsSqrt(sqrt)
    requires Neighbours(reg, self, radius, sqrt) == [x]
    ensures IsNeighbour(self, x.position, radius, sqrt)
    ensures CohesionOf(reg, self, radius, sqrt) == x.position.Minus(self)
    ensures AlignmentOf(reg, self, radius, sqrt) == ClampMagnitude(x.velocity, 1.0, sqrt)
    ensures SeparationOf(reg, self, radius, sqrt) == Repulsion(self, x.position, sqrt)
  {
    OnlyNeighbourQualifies(reg, x, self, radius, sqrt);
    OneNeighbourCohesion(reg, x, self, radius, sqrt);
    OneNeighbourAlignment(reg, x, self, radius, sqrt);
    OneNeighbourSeparation(reg, x, self, radius, sqrt);
  }

  lemma OnlyNeighbourQualifies(reg: seq<State>, x: State, self: Vec2, radius: real, sqrt: real -> real)
    requires IsSqrt(sqrt)
    requires Neighbours(reg, self, radius, sqrt) == [x]
    ensures IsNeighbour(self, x.position, radius, sqrt)
  {
    NeighboursMembers(reg, self, radius, sqrt);
    assert x in Neighbours(reg, self, radius, sqrt);
  }

  lemma MeanOfOne(v: Vec2)
    ensures Zero.Plus(v).Div(1.0) == v
  {
  }

  lemma OneNeighbourCohesion(reg: seq<State>, x: State, self: Vec2, radius: real, sqrt: real -> real)
    requires IsSqrt(sqrt)
    requires Neighbours(reg, self, radius, sqrt) == [x]
    ensures CohesionOf(reg, self, radius, sqrt) == x.position.Minus(self)
  {
    MeanOfOne(x.position);
    assert [x][..0] == [];
    assert SumPositions([x]) == Zero.Plus(x.position);
  }

  lemma OneNeighbourAlignment(reg: seq<State>, x: State, self: Vec2, radius: real, sqrt: real -> real)
    requires IsSqrt(sqrt)
    requires Neighbours(reg, self, radius, sqrt) == [x]
    ensures AlignmentOf(reg, self, radius, sqrt) == ClampMagnitude(x.velocity, 1.0, sqrt)
  {
    MeanOfOne(x.velocity);
    assert [x][..0] == [];
    assert SumVelocities([x]) == Zero.Plus(x.velocity);
  }

  lemma OneNeighbourSeparation(reg: seq<State>, x: State, self: Vec2, radius: real, sqrt: real -> real)
    requires IsSqrt(sqrt)
    requires Neighbours(reg, self, radius, sqrt) == [x]
    ensures IsNeighbour(self, x.position, radius, sqrt)
    ensures SeparationOf(reg, self, radius, sqrt) == Repulsion(self, x.position, sqrt)
  {
    OnlyNeighbourQualifies(reg, x, self, radius, sqrt);
    var t := Repulsion(self, x.position, sqrt);
    MeanOfOne(t);
    assert [x][..0] == [];
    assert SumRepulsions(self, [x], sqrt) == Zero.Plus(t);
  }
}
