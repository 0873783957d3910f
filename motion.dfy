/** The acceleration a boid asks for in one physics tick (Boid.cs:39-43):
    the three steering rules weighted by the controller's settings, summed,
    and clamped to the maximum acceleration. */
module Motion {
  import opened Vectors
  import opened Steering
  import SteeringLaws

  /** The public tuning fields of `BoidController` that the boids read. */
  datatype BoidController = BoidController(
    cohesionRadius: real,
    cohesionWeight: real,
    alignmentWeight: real,
    separationRadius: real,
    separationWeight: real,
    maxAcceleration: real)

  /** The field initialisers of BoidController.cs. */
  const Defaults := BoidController(30.0, 30.0, 1000.0, 20.0, 5000.0, 650.0)

  /** The weighted sum of the three rule outputs, before clamping. */
  function Combine(cohesion: Vec2, alignment: Vec2, separation: Vec2, ctrl: BoidController): Vec2 {
    cohesion.Scale(ctrl.cohesionWeight)
      .Plus(alignment.Scale(ctrl.alignmentWeight))
      .Plus(separation.Scale(ctrl.separationWeight))
  }

  /** The unclamped acceleration of a boid at `self` for registry `reg`;
      alignment reuses the cohesion radius, as `Alignment` does at Boid.cs:113. With no
      neighbour in either radius there is nothing to steer by. */
  function Desired(reg: seq<State>, self: Vec2, ctrl: BoidController, sqrt: real -> real): (r: Vec2)
    requires IsSqrt(sqrt)
    ensures (Neighbours(reg, self, ctrl.cohesionRadius, sqrt) == []
             && Neighbours(reg, self, ctrl.separationRadius, sqrt) == []) ==> r == Zero
  {
    Combine(
      CohesionOf(reg, self, ctrl.cohesionRadius, sqrt),
      AlignmentOf(reg, self, ctrl.cohesionRadius, sqrt),
      SeparationOf(reg, self, ctrl.separationRadius, sqrt),
      ctrl)
  }

  /** The acceleration of Boid.cs:39-43: never longer than the maximum,
      untouched when already within it, and otherwise shortened without
      turning. */
  function Acceleration(reg: seq<State>, self: Vec2, ctrl: BoidController, sqrt: real -> real): (r: Vec2)
    requires IsSqrt(sqrt)
    ensures r.NormSq() <= ctrl.maxAcceleration * ctrl.maxAcceleration
    ensures var d := Desired(reg, self, ctrl, sqrt);
      d.NormSq() <= ctrl.maxAcceleration * ctrl.maxAcceleration ==> r == d
    ensures var d := Desired(reg, self, ctrl, sqrt);
      0.0 <= ctrl.maxAcceleration ==> SameDirection(r, d)
  {
    var d := Desired(reg, self, ctrl, sqrt);
    var r := ClampMagnitude(d, ctrl.maxAcceleration, sqrt);
    assert r.NormSq() <= ctrl.maxAcceleration * ctrl.maxAcceleration;
    r
  }

  /** The acceleration depends on the registry only through the three rule
      outputs. */
  lemma AccelerationFromRules(reg: seq<State>, self: Vec2, ctrl: BoidController, sqrt: real -> real,
                              c: Vec2, a: Vec2, s: Vec2)
    requires IsSqrt(sqrt)
    requires CohesionOf(reg, self, ctrl.cohesionRadius, sqrt) == c
    requires AlignmentOf(reg, self, ctrl.cohesionRadius, sqrt) == a
    requires SeparationOf(reg, self, ctrl.separationRadius, sqrt) == s
    ensures Acceleration(reg, self, ctrl, sqrt) == ClampMagnitude(Combine(c, a, s, ctrl), ctrl.maxAcceleration, sqrt)
  {
  }

  /** A boid alone in the registry feels no acceleration at all. */
  lemma LoneBoid(self: Vec2, v: Vec2, ctrl: BoidController, sqrt: real -> real)
    requires IsSqrt(sqrt)
    ensures Acceleration([State(self, v)], self, ctrl, sqrt) == Zero
  {
    var reg := [State(self, v)];
    assert reg == [] + [State(self, v)] + [];
    SteeringLaws.IgnoresOwnEntry([], v, [], self, ctrl.cohesionRadius, sqrt);
    SteeringLaws.IgnoresOwnEntry([], v, [], self, ctrl.separationRadius, sqrt);
    assert Desired(reg, self, ctrl, sqrt) == Zero;
    NormSqNonNegative(Vec2(ctrl.maxAcceleration, 0.0));
  }
}
