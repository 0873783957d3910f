# Boids flocking step, modelled in Dafny

This project models one tick of a boid in the Unity flocking demo
(`Assets/Scripts/Boid.cs`, with the tuning values of
`Assets/Scripts/BoidController.cs`).

Every boid's `Rigidbody2D` sits in one static list, `_boids`. On each fixed
update a boid scans that list three times:

- **Cohesion** looks at the boids within the cohesion radius and steers
  toward their mean position.
- **Alignment** looks at the same neighbourhood (it reuses the cohesion
  radius) and takes their mean velocity, clamped to length 1.
- **Separation** looks at the boids within the separation radius and takes
  the mean of `(p - q).normalized / dist`.

An entry counts only when `0 < dist < radius`, which keeps the boid's own
entry out. The three results are weighted, summed and clamped to the maximum
acceleration. The clamped value, times the tick length, is the force handed
to the physics engine. Finally `Wrap` moves a boid that has left the screen
one screen width (or height) back. It applies at most one correction per
axis.

The model is split into modules:

- `Vectors` (vectors.dfy): Unity's `Vector2` over the reals, with
  `magnitude`, `normalized` (including its 1e-5 cut-off) and
  `ClampMagnitude`. The square root is a parameter `sqrt`. It is only
  required to return the non-negative root of each non-negative real
  (`IsSqrt`).
- `Steering` (steering.dfy): the neighbour filter and the three rules, as
  functions of a snapshot of the registry.
- `SteeringLaws` (steering_laws.dfy): how the rules behave across
  registries. It covers the scan step and which entries are ignored. It also
  covers what the rules give with no neighbour or with one neighbour.
- `Motion` (motion.dfy): the controller's tuning values and the combined,
  clamped acceleration of `FixedUpdate`.
- `BoundaryWrap` (wrap.dfy): the screen rectangle and the per-axis
  single-correction wrap.
- `Boids` (boid.dfy): the objects. `Rigidbody2D` holds the position and
  velocity. `Registry` is the shared list. `Boid` has `Start` as its
  constructor and the loop methods `Cohesion`, `Alignment` and `Separation`.
  It also has `Wrap` and `FixedUpdate`. Each method is proved against the
  functions above.
- `Scenes` (scenes.dfy): two boids at rest worked through the steering and
  clamp of one tick with the default settings.

## Model

| member | source | states |
|---|---|---|
| Vectors.MagnitudeSquared | Assets/Scripts/Boid.cs:83 | the length used for distances is a non-negative square root of the squared length |
| Vectors.ClampMagnitude | Assets/Scripts/Boid.cs:43 | clamps as `v.normalized * maxLength`: the result is never longer than the limit; a vector within the limit is returned unchanged; a longer one comes back at exactly the limit's length when it is longer than 1e-5, and as the zero vector when it is not (possible only for a limit below 1e-5); for a non-negative limit it never turns and never grows |
| Vectors.ClampLong | Assets/Scripts/Boid.cs:43 | a vector over the limit and longer than 1e-5 becomes `v * (maxLength / len)`, where `len` is any non-negative root of its squared length; one no longer than 1e-5 becomes zero |
| Vectors.Normalized | Assets/Scripts/Boid.cs:143 | a vector of length at most 1e-5 normalizes to zero; a longer one normalizes to a unit vector that, scaled by the length, gives the vector back |
| Steering.Distance | Assets/Scripts/Boid.cs:83 | the distance between two positions is never negative |
| Steering.DistanceZero | Assets/Scripts/Boid.cs:83-85 | the distance between two positions is zero exactly when they coincide, which is why `dist > 0` excludes the boid itself |
| Steering.IsNeighbour | Assets/Scripts/Boid.cs:85 | an entry that passes `dist < radius && dist > 0` is at a different position from the boid, and the radius is positive |
| Steering.NeighbourSymmetric | Assets/Scripts/Boid.cs:83-85 | the distance does not depend on argument order, so two boids pass each other's test for a given radius together |
| Steering.SelfNotNeighbour | Assets/Scripts/Boid.cs:85 | a boid's own position never passes the neighbour test, whatever the radius |
| Steering.Neighbours | Assets/Scripts/Boid.cs:81-90 | the entries the scan keeps are never more than the registry holds |
| Steering.NeighboursMembers | Assets/Scripts/Boid.cs:81-90 | an entry is kept exactly when it is in the registry and lies at a distance strictly between 0 and the radius |
| Steering.Repulsion | Assets/Scripts/Boid.cs:143 | a neighbour within 1e-5 has a zero separation term, though it still counts toward the mean |
| Steering.RepulsionPointsAway | Assets/Scripts/Boid.cs:143 | beyond 1e-5, a neighbour's separation term is `(p - q) / dist²`: it points away from the neighbour, and its dot product with `p - q` is 1 (so its component along the direction of `p - q` is `1 / dist`) |
| Steering.CohesionOf | Assets/Scripts/Boid.cs:75-100 | with neighbours present, position plus cohesion, times the neighbour count, is the sum of their positions: cohesion is the offset to their centroid |
| Steering.AlignmentOf | Assets/Scripts/Boid.cs:103-128 | alignment is never longer than 1, and it equals the neighbours' mean velocity whenever that mean is within length 1 |
| Steering.SeparationOf | Assets/Scripts/Boid.cs:131-154 | every neighbour is at a positive distance, and with neighbours present separation times their count is the sum of their repulsion terms: separation is their mean |
| SteeringLaws.NeighboursAppend | Assets/Scripts/Boid.cs:81-90 | the neighbours of a concatenated registry are the neighbours of each part, in order |
| SteeringLaws.NeighboursStep | Assets/Scripts/Boid.cs:81-90 | one loop iteration appends entry `i` to the neighbours found so far exactly when it passes the test, and leaves them alone otherwise |
| SteeringLaws.NeighboursSkip | Assets/Scripts/Boid.cs:85 | removing an entry that fails the test, from anywhere in the registry, leaves the neighbour list unchanged |
| SteeringLaws.IgnoresNonNeighbour | Assets/Scripts/Boid.cs:75-154 | none of cohesion, alignment and separation changes when an entry that fails the distance test is added anywhere in the registry |
| SteeringLaws.IgnoresOwnEntry | Assets/Scripts/Boid.cs:85 | a boid's own entry, whatever its velocity, changes none of the three rules |
| SteeringLaws.NoneQualify | Assets/Scripts/Boid.cs:81-90 | when no entry passes the test, the neighbour list is empty |
| SteeringLaws.NoNeighboursNoSteering | Assets/Scripts/Boid.cs:93-99 | when no entry passes the test, cohesion, alignment and separation are each exactly the zero vector |
| SteeringLaws.OneNeighbourRules | Assets/Scripts/Boid.cs:75-154 | with exactly one neighbour `x`: cohesion is the offset to `x`, alignment is `x`'s velocity clamped to length 1, and separation is `x`'s repulsion term |
| SteeringLaws.SingleNeighbourRepels | Assets/Scripts/Boid.cs:143-151 | with one neighbour beyond 1e-5, separation points away from it, with dot product 1 against `p - q` |
| SteeringLaws.PairNeighbours | Assets/Scripts/Boid.cs:81-90 | in a registry of a boid's own entry and one other, the neighbour list is that other entry exactly when it passes the test |
| Motion.Acceleration | Assets/Scripts/Boid.cs:39-43 | the acceleration is never longer than the maximum; a weighted sum within the maximum is kept unchanged; otherwise it is shortened without turning |
| Motion.Desired | Assets/Scripts/Boid.cs:39-41 | with no neighbour within either radius the weighted sum is the zero vector |
| Motion.LoneBoid | Assets/Scripts/Boid.cs:39-43 | a boid alone in the registry has zero acceleration, whatever its velocity and the settings |
| Scenes.DistanceAlongX | Assets/Scripts/Boid.cs:83 | two boids `x > 0` apart along the x axis are at distance `x` |
| Scenes.PairCohesion | Assets/Scripts/Boid.cs:75-100 | a neighbour at rest `x` to the right, with `0 < x < 30`, gives cohesion `(x, 0)` |
| Scenes.PairAlignment | Assets/Scripts/Boid.cs:103-128 | a neighbour at rest gives zero alignment |
| Scenes.PairSeparation | Assets/Scripts/Boid.cs:131-154 | a neighbour `x` to the right gives separation `(-1/x, 0)` when `1e-5 < x < 20`, and nothing from 20 on |
| Scenes.RepulsionAlongX | Assets/Scripts/Boid.cs:143 | a neighbour `x > 1e-5` to the right has repulsion term `(-1/x, 0)` |
| Scenes.ClampOnAxis | Assets/Scripts/Boid.cs:43 | an x-axis vector longer than `m` and than 1e-5 is clamped to length `m`, keeping its sign |
| Scenes.CloseNeighbourRepels | Assets/Scripts/BoidController.cs:10-15 | with the default settings, a neighbour 5 away pushes the boid away at the full 650 |
| Scenes.DistantNeighbourAttracts | Assets/Scripts/BoidController.cs:10-15 | with the default settings, a neighbour 25 away pulls the boid toward it at the full 650 |
| BoundaryWrap.FromEdges | Assets/Scripts/Boid.cs:27-32 | the stored width and height are the extents between the recorded edges |
| BoundaryWrap.WrapAxis | Assets/Scripts/Boid.cs:64-67 | one axis: a coordinate within the edges is kept; otherwise it moves by zero or one span; with the span equal to the extent, a coordinate at most one span outside lands between the edges |
| BoundaryWrap.Wrapped | Assets/Scripts/Boid.cs:62-72 | a position on screen is left alone; each coordinate moves by zero or by one screen width (height), in either direction |
| BoundaryWrap.AxesIndependent | Assets/Scripts/Boid.cs:62-72 | the wrapped x depends only on x, and the wrapped y only on y |
| BoundaryWrap.HorizontalReentry | Assets/Scripts/Boid.cs:64-67 | leaving `e` past the right edge (`0 < e <= width`) re-enters `e` right of the left edge, and leaving past the left edge re-enters as far left of the right edge |
| BoundaryWrap.VerticalReentry | Assets/Scripts/Boid.cs:68-71 | the same between the bottom and top edges |
| BoundaryWrap.WrapReturnsToScreen | Assets/Scripts/Boid.cs:62-72 | a boid less than one screen off screen is back on screen after wrapping, and wrapping again changes nothing |
| BoundaryWrap.SingleCorrection | Assets/Scripts/Boid.cs:64-65 | only one correction is made per tick: a boid more than a screen width past the left edge is still off screen |
| Boids.Registry.Add | Assets/Scripts/Boid.cs:19 | the body is appended to the shared list |
| Boids.StartSpeedBelow40 | Assets/Scripts/Boid.cs:22-24 | the starting velocity, a unit-disc point times a whole number from 20 to 39, is slower than 40 |
| Boids.Boid.constructor | Assets/Scripts/Boid.cs:13-33 | `Start`: the body is appended to the registry, its velocity is the scaled random point (slower than 40), its position is untouched, and the edges and their extents are recorded |
| Boids.Boid.Cohesion | Assets/Scripts/Boid.cs:75-100 | the loop returns `CohesionOf` of the registry's current positions and velocities |
| Boids.Boid.Alignment | Assets/Scripts/Boid.cs:103-128 | the loop returns `AlignmentOf` over the cohesion radius |
| Boids.Boid.Separation | Assets/Scripts/Boid.cs:131-154 | the loop returns `SeparationOf` over the separation radius |
| Boids.Boid.Steer | Assets/Scripts/Boid.cs:39-43 | the weighted, clamped acceleration equals `Acceleration` of the registry snapshot and is no longer than the maximum |
| Boids.Boid.Wrap | Assets/Scripts/Boid.cs:62-72 | the new position is `Wrapped` of the old one, and the velocity is untouched |
| Boids.Boid.FixedUpdate | Assets/Scripts/Boid.cs:36-51 | the force is the acceleration computed from the registry as it stands when `FixedUpdate` is called, times the tick length; the position is then wrapped; the velocity and the registry list are unchanged |

## Left out

- `FaceTowardsHeading` (Assets/Scripts/Boid.cs:54-59) is not modelled. It only sets the body's rotation from `Atan2` of the velocity. Nothing in the steering reads that rotation.
- `AddForce` and the physics step are not modelled. `FixedUpdate` returns the force it would hand to the engine. The velocity is unchanged within the tick, and the position changes only through `Wrap`.
- `OnDrawGizmosSelected` (Assets/Scripts/Boid.cs:157-163) is not modelled, because it is editor-only drawing.
- `BoidController.Start` (Assets/Scripts/BoidController.cs:17-25) is not modelled. It instantiates the prefabs. The `Boid` constructor is given its body, the shared registry and the controller values instead of calling `GetComponentInParent`.
- `Random.insideUnitCircle` and `Random.Range(20, 40)` become constructor parameters, constrained to the unit disc and to the whole numbers 20 to 39.
- `Camera.main.ScreenToWorldPoint` becomes constructor parameters: the four edges it yields.
- Unity's single-precision square root becomes the parameter `sqrt`, required to be the exact non-negative square root.
- Floating point is not modelled: all arithmetic is on exact reals, so rounding and the order of summation play no part.
- The order in which Unity runs the boids' fixed updates within one physics step is not modelled. Each `FixedUpdate` sees the registry as it stands when it is called.
