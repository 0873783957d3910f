/** Plane vectors over the reals, standing for Unity's `Vector2`, and the one
    library operation of it that needs a square root, `ClampMagnitude`.

    Unity computes lengths with a floating-point square root. The model takes
    that square root as a parameter `sqrt` and asks only that it return the
    non-negative root of every non-negative argument (`IsSqrt`). */
module Vectors {

  datatype Vec2 = Vec2(x: real, y: real) {

    function Plus(w: Vec2): Vec2 { Vec2(x + w.x, y + w.y) }

    function Minus(w: Vec2): Vec2 { Vec2(x - w.x, y - w.y) }

    function Scale(k: real): Vec2 { Vec2(k * x, k * y) }

    function Div(k: real): Vec2
      requires k != 0.0
    { Vec2(x / k, y / k) }

    function Dot(w: Vec2): real { x * w.x + y * w.y }

    /** Unity's `sqrMagnitude`. */
    function NormSq(): real { x * x + y * y }
  }

  const Zero := Vec2(0.0, 0.0)

  lemma NormSqNonNegative(v: Vec2)
    ensures 0.0 <= v.NormSq()
  {
  }

  /** Only the zero vector has squared length zero. */
  lemma NormSqPositive(v: Vec2)
    requires v != Zero
    ensures 0.0 < v.NormSq()
  {
    if v.x != 0.0 {
      calc {
        v.NormSq();
      ==
        v.x * v.x + v.y * v.y;
      > { PositiveSquareSum(v.x, v.y); }
        0.0;
      }
    } else {
      calc {
        v.NormSq();
      ==
        v.y * v.y + v.x * v.x;
      > { PositiveSquareSum(v.y, v.x); }
        0.0;
      }
    }
  }

  lemma PositiveSquareSum(a: real, b: real)
    requires a != 0.0
    ensures 0.0 < a * a + b * b
  {
    SquarePositive(a);
    SquareNonNegative(b);
  }

  lemma SquareNonNegative(a: real)
    ensures 0.0 <= a * a
  {
  }

  lemma SquarePositive(a: real)
    requires a != 0.0
    ensures 0.0 < a * a
  {
    if a < 0.0 {
      assert a * a == (-a) * (-a);
      PositiveProduct(-a, -a);
    } else {
      PositiveProduct(a, a);
    }
  }

  lemma ScaleNormSq(v: Vec2, k: real)
    ensures v.Scale(k).NormSq() == k * k * v.NormSq()
  {
  }

  /** The offset from a point to itself has squared length zero. */
  lemma OffsetToSelf(p: Vec2)
    ensures p.Minus(p).NormSq() == 0.0
  {
    assert p.Minus(p) == Zero;
  }

  /** Dividing by a non-zero `k` and scaling back by `k` is the identity. */
  lemma DivThenScale(v: Vec2, k: real)
    requires k != 0.0
    ensures v.Div(k).Scale(k) == v
  {
    assert k * (v.x / k) == v.x;
    assert k * (v.y / k) == v.y;
  }

  /** `sqrt` returns the non-negative square root of every non-negative real. */
  ghost predicate IsSqrt(sqrt: real -> real) {
    forall a: real {:trigger IsRootOf(sqrt, a)} :: 0.0 <= a ==> IsRootOf(sqrt, a)
  }

  /** `sqrt(a)` is the non-negative square root of `a`. Facts about one
      argument are drawn from `IsSqrt` only by mentioning this predicate
      for that argument, which keeps square roots out of unrelated
      proofs. */
  ghost predicate IsRootOf(sqrt: real -> real, a: real) {
    0.0 <= sqrt(a) && sqrt(a) * sqrt(a) == a
  }

  lemma PositiveProduct(a: real, b: real)
    requires 0.0 < a && 0.0 < b
    ensures 0.0 < a * b
  {
  }

  lemma SquareMonotone(a: real, b: real)
    requires 0.0 <= a < b
    ensures a * a < b * b
  {
    assert b * b - a * a == (b - a) * (b + a);
    PositiveProduct(b - a, b + a);
  }

  /** The square root is unique: any non-negative `r` with `r * r == n` is
      what `sqrt` returns for `n`. */
  lemma RootOf(sqrt: real -> real, n: real, r: real)
    requires IsSqrt(sqrt) && 0.0 <= r && r * r == n
    ensures sqrt(n) == r
  {
    var s := sqrt(n);
    assert IsRootOf(sqrt, n);
    if s < r {
      SquareMonotone(s, r);
      assert false;
    }
    if r < s {
      SquareMonotone(r, s);
      assert false;
    }
  }

  /** The root of zero is zero. */
  lemma RootOfZero(sqrt: real -> real)
    requires IsSqrt(sqrt)
    ensures sqrt(0.0) == 0.0
  {
    RootOf(sqrt, 0.0, 0.0);
  }

  /** A non-negative root of a positive number is positive. */
  lemma RootPositive(n: real, root: real)
    requires 0.0 < n && 0.0 <= root && root * root == n
    ensures 0.0 < root
  {
    if root == 0.0 {
      assert false;
    }
  }

  /** `r` is a non-negative multiple of `v` (or `v` is zero). */
  predicate SameDirection(r: Vec2, v: Vec2) {
    r.x * v.y == r.y * v.x && 0.0 <= r.Dot(v)
  }

  /** Unity's `magnitude`. */
  function Magnitude(v: Vec2, sqrt: real -> real): (m: real)
    requires IsSqrt(sqrt)
    ensures 0.0 <= m
  {
    NormSqNonNegative(v);
    assert IsRootOf(sqrt, v.NormSq());
    sqrt(v.NormSq())
  }

  /** The magnitude is a square root of the squared length. */
  lemma MagnitudeSquared(v: Vec2, sqrt: real -> real)
    requires IsSqrt(sqrt)
    ensures Magnitude(v, sqrt) * Magnitude(v, sqrt) == v.NormSq()
  {
    NormSqNonNegative(v);
    assert IsRootOf(sqrt, v.NormSq());
  }

  /** Unity's `Vector2.ClampMagnitude(v, maxLength)`: a vector whose squared
      length exceeds `maxLength * maxLength` is replaced by
      `v.normalized * maxLength`; any other vector is returned unchanged.
      Going through `normalized` means that a vector no longer than
      `NormalizeEpsilon`, yet over a limit smaller still, is clamped to the
      zero vector. */
  function ClampMagnitude(v: Vec2, maxLength: real, sqrt: real -> real): (r: Vec2)
    requires IsSqrt(sqrt)
    ensures r.NormSq() <= maxLength * maxLength
    ensures v.NormSq() <= maxLength * maxLength ==> r == v
    ensures maxLength * maxLength < v.NormSq() && NormalizeEpsilon < Magnitude(v, sqrt) ==>
      r.NormSq() == maxLength * maxLength
    ensures maxLength * maxLength < v.NormSq() && Magnitude(v, sqrt) <= NormalizeEpsilon ==> r == Zero
    ensures 0.0 <= maxLength ==> SameDirection(r, v) && r.NormSq() <= v.NormSq()
  {
    if v.NormSq() > maxLength * maxLength then
      ClampedDirection(v, maxLength, sqrt);
      Normalized(v, sqrt).Scale(maxLength)
    else
      v
  }

  /** What `v.normalized * maxLength` is for a vector over the limit. */
  lemma ClampedDirection(v: Vec2, maxLength: real, sqrt: real -> real)
    requires IsSqrt(sqrt) && maxLength * maxLength < v.NormSq()
    ensures var r := Normalized(v, sqrt).Scale(maxLength);
      && r.NormSq() <= maxLength * maxLength
      && (NormalizeEpsilon < Magnitude(v, sqrt) ==> r.NormSq() == maxLength * maxLength)
      && (Magnitude(v, sqrt) <= NormalizeEpsilon ==> r == Zero)
      && (0.0 <= maxLength ==> SameDirection(r, v) && r.NormSq() <= v.NormSq())
  {
    if NormalizeEpsilon < Magnitude(v, sqrt) {
      ClampedLongCase(v, maxLength, sqrt);
    } else {
      ClampedTinyCase(v, maxLength, sqrt);
    }
  }

  lemma ClampedLongCase(v: Vec2, maxLength: real, sqrt: real -> real)
    requires IsSqrt(sqrt) && maxLength * maxLength < v.NormSq()
    requires NormalizeEpsilon < Magnitude(v, sqrt)
    ensures var r := Normalized(v, sqrt).Scale(maxLength);
      && r.NormSq() == maxLength * maxLength
      && (0.0 <= maxLength ==> SameDirection(r, v))
  {
    ClampedToLength(v, maxLength, sqrt);
  }

  lemma ClampedTinyCase(v: Vec2, maxLength: real, sqrt: real -> real)
    requires IsSqrt(sqrt) && maxLength * maxLength < v.NormSq()
    requires Magnitude(v, sqrt) <= NormalizeEpsilon
    ensures var r := Normalized(v, sqrt).Scale(maxLength);
      && r == Zero
      && r.NormSq() <= maxLength * maxLength
      && SameDirection(r, v) && r.NormSq() <= v.NormSq()
  {
    SquareNonNegative(maxLength);
    ZeroSameDirection(v);
    assert Normalized(v, sqrt).Scale(maxLength) == Zero;
  }

  lemma ZeroSameDirection(v: Vec2)
    ensures SameDirection(Zero, v) && Zero.NormSq() <= v.NormSq()
  {
    assert Zero.x * v.y == 0.0 && Zero.y * v.x == 0.0;
    assert Zero.Dot(v) == 0.0;
  }

  lemma ClampedToLength(v: Vec2, maxLength: real, sqrt: real -> real)
    requires IsSqrt(sqrt) && NormalizeEpsilon < Magnitude(v, sqrt)
    ensures var r := Normalized(v, sqrt).Scale(maxLength);
      && r.NormSq() == maxLength * maxLength
      && r.x * v.y == r.y * v.x
      && (0.0 <= maxLength ==> 0.0 <= r.Dot(v))
  {
    var len := Magnitude(v, sqrt);
    MagnitudeSquared(v, sqrt);
    NormalizedScale(v, maxLength, sqrt);
    ShrunkToLength(v, maxLength, len);
  }

  /** Beyond `NormalizeEpsilon`, `v.normalized * m` is `v * (m / |v|)`. */
  lemma NormalizedScale(v: Vec2, m: real, sqrt: real -> real)
    requires IsSqrt(sqrt) && NormalizeEpsilon < Magnitude(v, sqrt)
    ensures Normalized(v, sqrt).Scale(m) == v.Scale(m / Magnitude(v, sqrt))
  {
    var len := Magnitude(v, sqrt);
    assert Normalized(v, sqrt) == v.Div(len);
    assert m * (v.x / len) == (m / len) * v.x;
    assert m * (v.y / len) == (m / len) * v.y;
  }

  /** A vector longer than `maxLength` (and than `NormalizeEpsilon`) is
      clamped to `v * (maxLength / |v|)`, whatever the root `len` of its
      squared length is called; one no longer than `NormalizeEpsilon` is
      clamped to zero. */
  lemma ClampLong(v: Vec2, maxLength: real, len: real, sqrt: real -> real)
    requires IsSqrt(sqrt) && 0.0 <= len && len * len == v.NormSq()
    requires maxLength * maxLength < v.NormSq()
    ensures NormalizeEpsilon < len ==> ClampMagnitude(v, maxLength, sqrt) == v.Scale(maxLength / len)
    ensures len <= NormalizeEpsilon ==> ClampMagnitude(v, maxLength, sqrt) == Zero
  {
    RootOf(sqrt, v.NormSq(), len);
    if NormalizeEpsilon < len {
      NormalizedScale(v, maxLength, sqrt);
    }
  }

  /** Scaling `v` by `m / |v|` gives a vector of squared length `m * m`,
      parallel to `v`, and pointing the same way when `m` is not negative. */
  lemma ShrunkToLength(v: Vec2, m: real, len: real)
    requires 0.0 < len && len * len == v.NormSq()
    ensures var r := v.Scale(m / len);
      && r.NormSq() == m * m
      && r.x * v.y == r.y * v.x
      && (0.0 <= m ==> 0.0 <= r.Dot(v))
  {
    var k := m / len;
    assert k * len == m;
    ScaleNormSq(v, k);
    assert k * k * (len * len) == (k * len) * (k * len);
    var r := v.Scale(k);
    assert r.x * v.y == r.y * v.x;
    assert r.Dot(v) == k * v.NormSq();
  }

  /** Unity's `Vector2.kEpsilon`, below which `normalized` gives up. */
  const NormalizeEpsilon: real := 0.00001

  /** Unity's `normalized`: `v` divided by its length, or the zero vector
      when that length is not above `NormalizeEpsilon`. */
  function Normalized(v: Vec2, sqrt: real -> real): (u: Vec2)
    requires IsSqrt(sqrt)
    ensures Magnitude(v, sqrt) <= NormalizeEpsilon ==> u == Zero
    ensures NormalizeEpsilon < Magnitude(v, sqrt) ==>
      u.NormSq() == 1.0 && u.Scale(Magnitude(v, sqrt)) == v
  {
    var len := Magnitude(v, sqrt);
    if len > NormalizeEpsilon then
      MagnitudeSquared(v, sqrt);
      ShrunkToLength(v, 1.0, len);
      assert v.Div(len) == v.Scale(1.0 / len);
      assert v.Div(len).Scale(len) == v;
      v.Div(len)
    else
      Zero
  }
}
