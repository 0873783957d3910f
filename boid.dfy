/** The `Boid` behaviour of Assets/Scripts/Boid.cs as objects: rigid bodies
    whose position and velocity the boid reads and changes, the static list
    of all of them that every boid scans, and the boid itself with its
    per-tick methods. Each method is proved against the functions of
    `Steering`, `Motion` and `BoundaryWrap` that state what it computes. */
module Boids {
  import opened Vectors
  import opened Steering
  import opened SteeringLaws
  import opened Motion
  import opened BoundaryWrap

  /** The part of Unity's `Rigidbody2D` that the boids use. */
  class Rigidbody2D {
    var position: Vec2
    var velocity: Vec2

    constructor (position: Vec2, velocity: Vec2)
      ensures this.position == position && this.velocity == velocity
    {
      this.position := position;
      this.velocity := velocity;
    }
  }

  /** The static list `_boids` that every boid appends its body to in
      `Start` and scans in each steering rule. */
  class Registry {
    var boids: seq<Rigidbody2D>

    constructor ()
      ensures boids == []
    {
      boids := [];
    }

    method Add(b: Rigidbody2D)
      modifies this
      ensures boids == old(boids) + [b]
    {
      boids := boids + [b];
    }

    /** The positions and velocities of the registered bodies, in list
        order. */
    function Snapshot(): (s: seq<State>)
      reads this, boids
      ensures |s| == |boids|
      ensures forall i :: 0 <= i < |boids| ==> s[i] == State(boids[i].position, boids[i].velocity)
    {
      seq(|boids|, i reads this, boids requires 0 <= i < |boids| => State(boids[i].position, boids[i].velocity))
    }
  }

  /** The starting velocity `Start` gives a boid, a point of the unit disc
      scaled by a whole number from 20 up to 39, is slower than 40. */
  lemma StartSpeedBelow40(unit: Vec2, speed: int)
    requires unit.NormSq() <= 1.0 && 20 <= speed < 40
    ensures unit.Scale(speed as real).NormSq() < 40.0 * 40.0
  {
    var k := speed as real;
    ScaleNormSq(unit, k);
    SquareMonotone(k, 40.0);
    NormSqNonNegative(unit);
    SquareNonNegative(k);
    calc {
      unit.Scale(k).NormSq();
    ==
      k * k * unit.NormSq();
    <= { ScaleBelowOne(k * k, unit.NormSq()); }
      k * k;
    <
      40.0 * 40.0;
    }
  }

  lemma ScaleBelowOne(a: real, f: real)
    requires 0.0 <= a && f <= 1.0
    ensures a * f <= a
  {
    assert a - a * f == a * (1.0 - f);
  }

  class Boid {
    const body: Rigidbody2D
    const registry: Registry
    const controller: BoidController
    const bounds: WorldBounds

    /** `Start`: register the body, give it a random starting velocity and
        record the screen edges. The random point of the unit disc, the
        random whole-number speed and the screen edges mapped into the
        world are parameters. */
    constructor (body: Rigidbody2D, registry: Registry, controller: BoidController,
                 unit: Vec2, speed: int, left: real, right: real, top: real, bottom: real)
      requires unit.NormSq() <= 1.0 && 20 <= speed < 40
      modifies registry, body
      ensures this.body == body && this.registry == registry && this.controller == controller
      ensures registry.boids == old(registry.boids) + [body]
      ensures body.position == old(body.position)
      ensures body.velocity == unit.Scale(speed as real)
      ensures body.velocity.NormSq() < 40.0 * 40.0
      ensures bounds.left == left && bounds.right == right && bounds.top == top && bounds.bottom == bottom
      ensures bounds.Consistent()
    {
      this.body := body;
      this.registry := registry;
      this.controller := controller;
      this.bounds := FromEdges(left, right, top, bottom);
      new;
      registry.Add(body);
      body.velocity := unit.Scale(speed as real);
      StartSpeedBelow40(unit, speed);
    }

    /** `Cohesion`: one pass over the registry summing the positions of the
        entries within the cohesion radius. */
    method Cohesion(sqrt: real -> real) returns (v: Vec2)
      requires IsSqrt(sqrt)
      ensures v == CohesionOf(registry.Snapshot(), body.position, controller.cohesionRadius, sqrt)
    {
      ghost var reg := registry.Snapshot();
      ghost var self := body.position;
      var sum := Zero;
      var count := 0;
      for i := 0 to |registry.boids|
        invariant sum == SumPositions(Neighbours(reg[..i], self, controller.cohesionRadius, sqrt))
        invariant count == |Neighbours(reg[..i], self, controller.cohesionRadius, sqrt)|
      {
        var dist := Distance(body.position, registry.boids[i].position, sqrt);
        assert reg[i] == State(registry.boids[i].position, registry.boids[i].velocity);
        NeighboursStep(reg, i, self, controller.cohesionRadius, sqrt);
        if dist < controller.cohesionRadius && dist > 0.0 {
          SumPositionsSnoc(Neighbours(reg[..i], self, controller.cohesionRadius, sqrt), reg[i]);
          sum := sum.Plus(registry.boids[i].position);
          count := count + 1;
        }
      }
      assert reg[..|registry.boids|] == reg;
      if count > 0 {
        sum := sum.Div(count as real);
        return sum.Minus(body.position);
      }
      return sum;
    }

    /** `Alignment`: one pass summing the velocities of the entries within
        the cohesion radius (Boid.cs:113 reuses that radius here). */
    method Alignment(sqrt: real -> real) returns (v: Vec2)
      requires IsSqrt(sqrt)
      ensures v == AlignmentOf(registry.Snapshot(), body.position, controller.cohesionRadius, sqrt)
    {
      ghost var reg := registry.Snapshot();
      ghost var self := body.position;
      var sum := Zero;
      var count := 0;
      for i := 0 to |registry.boids|
        invariant sum == SumVelocities(Neighbours(reg[..i], self, controller.cohesionRadius, sqrt))
        invariant count == |Neighbours(reg[..i], self, controller.cohesionRadius, sqrt)|
      {
        var dist := Distance(body.position, registry.boids[i].position, sqrt);
        assert reg[i] == State(registry.boids[i].position, registry.boids[i].velocity);
        NeighboursStep(reg, i, self, controller.cohesionRadius, sqrt);
        if dist < controller.cohesionRadius && dist > 0.0 {
          SumVelocitiesSnoc(Neighbours(reg[..i], self, controller.cohesionRadius, sqrt), reg[i]);
          sum := sum.Plus(registry.boids[i].velocity);
          count := count + 1;
        }
      }
      assert reg[..|registry.boids|] == reg;
      if count > 0 {
        sum := sum.Div(count as real);
        sum := ClampMagnitude(sum, 1.0, sqrt);
      }
      return sum;
    }

    /** `Separation`: one pass summing `(self - q).normalized / dist` over
        the entries within the separation radius. */
    method Separation(sqrt: real -> real) returns (v: Vec2)
      requires IsSqrt(sqrt)
      ensures v == SeparationOf(registry.Snapshot(), body.position, controller.separationRadius, sqrt)
    {
      ghost var reg := registry.Snapshot();
      ghost var self := body.position;
      ghost var radius := controller.separationRadius;
      var sum := Zero;
      var count := 0;
      for i := 0 to |registry.boids|
        invariant forall s :: s in Neighbours(reg[..i], self, radius, sqrt) ==> 0.0 < Distance(self, s.position, sqrt)
        invariant sum == SumRepulsions(self, Neighbours(reg[..i], self, radius, sqrt), sqrt)
        invariant count == |Neighbours(reg[..i], self, radius, sqrt)|
      {
        var dist := Distance(body.position, registry.boids[i].position, sqrt);
        NeighboursStep(reg, i, self, radius, sqrt);
        NeighboursMembers(reg[..i + 1], self, radius, sqrt);
        if dist < controller.separationRadius && dist > 0.0 {
          SumRepulsionsSnoc(self, Neighbours(reg[..i], self, radius, sqrt), reg[i], sqrt);
          sum := sum.Plus(Repulsion(body.position, registry.boids[i].position, sqrt));
          count := count + 1;
        }
      }
      assert reg[..|registry.boids|] == reg;
      if count > 0 {
        sum := sum.Div(count as real);
      }
      return sum;
    }

    /** The acceleration computed at the top of `FixedUpdate`: the weighted
        rules, summed and clamped to the maximum acceleration. */
    method Steer(sqrt: real -> real) returns (acceleration: Vec2)
      requires IsSqrt(sqrt)
      ensures acceleration == Acceleration(registry.Snapshot(), body.position, controller, sqrt)
      ensures acceleration.NormSq() <= controller.maxAcceleration * controller.maxAcceleration
    {
      var c := Cohesion(sqrt);
      acceleration := c.Scale(controller.cohesionWeight);
      var a := Alignment(sqrt);
      acceleration := acceleration.Plus(a.Scale(controller.alignmentWeight));
      var s := Separation(sqrt);
      acceleration := acceleration.Plus(s.Scale(controller.separationWeight));
      acceleration := ClampMagnitude(acceleration, controller.maxAcceleration, sqrt);
      AccelerationFromRules(registry.Snapshot(), body.position, controller, sqrt, c, a, s);
    }

    /** `Wrap`: move the body back across the screen on each axis it has
        left, one correction per axis. */
    method Wrap()
      modifies body
      ensures body.position == Wrapped(old(body.position), bounds)
      ensures body.velocity == old(body.velocity)
    {
      if body.position.x < bounds.left {
        body.position := body.position.Plus(Vec2(bounds.width, 0.0));
      } else if body.position.x > bounds.right {
        body.position := body.position.Minus(Vec2(bounds.width, 0.0));
      }
      if body.position.y < bounds.bottom {
        body.position := body.position.Plus(Vec2(0.0, bounds.height));
      } else if body.position.y > bounds.top {
        body.position := body.position.Minus(Vec2(0.0, bounds.height));
      }
    }

    /** `FixedUpdate`: the force handed to `AddForce` (the clamped
        acceleration times the tick length, computed from the registry as it
        stands when `FixedUpdate` is called), then the wrap. The physics engine
        that applies the force is not modelled, so the force is returned. */
    method FixedUpdate(sqrt: real -> real, fixedDeltaTime: real) returns (force: Vec2)
      requires IsSqrt(sqrt)
      modifies body
      ensures force == Acceleration(old(registry.Snapshot()), old(body.position), controller, sqrt).Scale(fixedDeltaTime)
      ensures body.position == Wrapped(old(body.position), bounds)
      ensures body.velocity == old(body.velocity)
      ensures registry.boids == old(registry.boids)
    {
      var acceleration := Steer(sqrt);
      force := acceleration.Scale(fixedDeltaTime);
      Wrap();
    }
  }
}
