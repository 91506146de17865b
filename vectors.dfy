/** The renderer's `Vec3` value type and its algebra.
    Components are reals: they stand for JavaScript's double-precision
    numbers, so rounding, overflow, NaN and Infinity are not modelled. */
module Vectors {

  /** A point or a direction in space. Every operation returns a new value. */
  datatype Vec3 = Vec3(x: real, y: real, z: real)

  const Zero: Vec3 := Vec3(0.0, 0.0, 0.0)

  /** Componentwise sum (`add`). */
  function Add(a: Vec3, b: Vec3): Vec3
  {
    Vec3(a.x + b.x, a.y + b.y, a.z + b.z)
  }

  /** Componentwise difference (`subtract`): zero exactly when the operands
      are equal. */
  function Subtract(a: Vec3, b: Vec3): (r: Vec3)
    ensures r == Zero <==> a == b
  {
    Vec3(a.x - b.x, a.y - b.y, a.z - b.z)
  }

  /** Scaling by a number (`multiply`). */
  function Multiply(v: Vec3, s: real): Vec3
  {
    Vec3(v.x * s, v.y * s, v.z * s)
  }

  /** The scalar product (`dotProduct`). */
  function Dot(a: Vec3, b: Vec3): real
  {
    a.x * b.x + a.y * b.y + a.z * b.z
  }

  /** The right-handed vector product (`crossProduct`). */
  function Cross(a: Vec3, b: Vec3): Vec3
  {
    Vec3(a.y * b.z - a.z * b.y,
         a.z * b.x - a.x * b.z,
         a.x * b.y - a.y * b.x)
  }

  /** The quantity under the square root in `magnitude`: never negative. */
  function MagnitudeSquared(v: Vec3): (r: real)
    ensures r >= 0.0
  {
    SquareNonNegative(v.x);
    SquareNonNegative(v.y);
    SquareNonNegative(v.z);
    v.x * v.x + v.y * v.y + v.z * v.z
  }

  /** The quantity under the square root in `distance`: the squared
      magnitude of the difference, so never negative. */
  function DistanceSquared(a: Vec3, b: Vec3): (r: real)
    ensures r >= 0.0
    ensures r == MagnitudeSquared(Subtract(a, b))
  {
    var diffX := a.x - b.x;
    var diffY := a.y - b.y;
    var diffZ := a.z - b.z;
    diffX * diffX + diffY * diffY + diffZ * diffZ
  }

  /** `normalize`, which main.js calls but never defines: scaling `v` by
      `invMag(v)`, where `invMag` stands for one over the magnitude of `v`. */
  function Normalize(v: Vec3, invMag: Vec3 -> real): Vec3
  {
    Multiply(v, invMag(v))
  }

  lemma SquareNonNegative(a: real)
    ensures a * a >= 0.0
  {
    if a < 0.0 {
      assert a * a > 0.0;
    }
  }

  /** Subtracting and adding the same vector are inverse to each other. */
  lemma AddSubtractInverse(a: Vec3, b: Vec3)
    ensures Subtract(Add(a, b), b) == a
    ensures Add(Subtract(a, b), b) == a
  {
  }

  /** `add` is commutative and associative, with the zero vector as identity. */
  lemma AddLaws(a: Vec3, b: Vec3, c: Vec3)
    ensures Add(a, b) == Add(b, a)
    ensures Add(Add(a, b), c) == Add(a, Add(b, c))
    ensures Add(a, Zero) == a
  {
  }

  /** `multiply(1)` is the identity, `multiply(0)` gives the zero vector, and scalings compose. */
  lemma MultiplyLaws(v: Vec3, s: real, t: real)
    ensures Multiply(v, 1.0) == v
    ensures Multiply(v, 0.0) == Zero
    ensures Multiply(Multiply(v, s), t) == Multiply(v, s * t)
  {
    assert (v.x * s) * t == v.x * (s * t);
    assert (v.y * s) * t == v.y * (s * t);
    assert (v.z * s) * t == v.z * (s * t);
  }

  /** A scaling by a non-zero factor gives the zero vector only from the zero vector. */
  lemma MultiplyNonZero(v: Vec3, s: real)
    requires s != 0.0
    ensures Multiply(v, s) == Zero <==> v == Zero
  {
    if Multiply(v, s) == Zero {
      assert v.x * s == 0.0 && v.y * s == 0.0 && v.z * s == 0.0;
    }
  }

  /** The dot product is symmetric, and a vector's product with itself is its
      squared magnitude, so never negative. */
  lemma DotLaws(a: Vec3, b: Vec3)
    ensures Dot(a, b) == Dot(b, a)
    ensures Dot(a, a) == MagnitudeSquared(a) >= 0.0
  {
  }

  /** The dot product is linear in its first operand. */
  lemma DotLinear(a: Vec3, b: Vec3, c: Vec3, s: real)
    ensures Dot(Add(a, b), c) == Dot(a, c) + Dot(b, c)
    ensures Dot(Subtract(a, b), c) == Dot(a, c) - Dot(b, c)
    ensures Dot(Multiply(a, s), c) == s * Dot(a, c)
  {
    assert Dot(Multiply(a, s), c) == (a.x * s) * c.x + (a.y * s) * c.y + (a.z * s) * c.z;
    assert (a.x * s) * c.x == s * (a.x * c.x);
    assert (a.y * s) * c.y == s * (a.y * c.y);
    assert (a.z * s) * c.z == s * (a.z * c.z);
  }

  /** The cross product is perpendicular to both of its operands. */
  lemma CrossOrthogonal(a: Vec3, b: Vec3)
    ensures Dot(Cross(a, b), a) == 0.0
    ensures Dot(Cross(a, b), b) == 0.0
  {
    var r := Cross(a, b);
    assert Dot(r, a) == (a.y * b.z - a.z * b.y) * a.x + (a.z * b.x - a.x * b.z) * a.y + (a.x * b.y - a.y * b.x) * a.z;
    assert Dot(r, b) == (a.y * b.z - a.z * b.y) * b.x + (a.z * b.x - a.x * b.z) * b.y + (a.x * b.y - a.y * b.x) * b.z;
  }

  /** The cross product is anti-commutative and vanishes on a vector with itself. */
  lemma CrossAntiCommutative(a: Vec3, b: Vec3)
    ensures Cross(b, a) == Multiply(Cross(a, b), -1.0)
    ensures Cross(a, a) == Zero
  {
  }

  /** Scaling the first operand of a cross product scales the product. */
  lemma CrossScaleLeft(a: Vec3, b: Vec3, s: real)
    ensures Cross(Multiply(a, s), b) == Multiply(Cross(a, b), s)
  {
    var l := Cross(Multiply(a, s), b);
    var r := Multiply(Cross(a, b), s);
    assert l.x == r.x by { ScaledDifferenceLeft(a.y, b.z, a.z, b.y, s); }
    assert l.y == r.y by { ScaledDifferenceLeft(a.z, b.x, a.x, b.z, s); }
    assert l.z == r.z by { ScaledDifferenceLeft(a.x, b.y, a.y, b.x, s); }
  }

  /** Scaling the second operand of a cross product scales the product. */
  lemma CrossScaleRight(a: Vec3, b: Vec3, s: real)
    ensures Cross(a, Multiply(b, s)) == Multiply(Cross(a, b), s)
  {
    var l := Cross(a, Multiply(b, s));
    var r := Multiply(Cross(a, b), s);
    assert l.x == r.x by { ScaledDifferenceRight(a.y, b.z, a.z, b.y, s); }
    assert l.y == r.y by { ScaledDifferenceRight(a.z, b.x, a.x, b.z, s); }
    assert l.z == r.z by { ScaledDifferenceRight(a.x, b.y, a.y, b.x, s); }
  }

  /** One component of a cross product whose first operand is scaled. */
  lemma ScaledDifferenceLeft(p: real, q: real, u: real, w: real, s: real)
    ensures (p * s) * q - (u * s) * w == (p * q - u * w) * s
  {
  }

  /** One component of a cross product whose second operand is scaled. */
  lemma ScaledDifferenceRight(p: real, q: real, u: real, w: real, s: real)
    ensures p * (q * s) - u * (w * s) == (p * q - u * w) * s
  {
  }

  /** Whatever factor `normalize` applies, its result lies on the line of its argument. */
  lemma NormalizeParallel(v: Vec3, invMag: Vec3 -> real)
    ensures Cross(Normalize(v, invMag), v) == Zero
  {
    CrossScaleLeft(v, v, invMag(v));
    CrossAntiCommutative(v, v);
  }

  /** `distance` is symmetric and zero from a point to itself. */
  lemma DistanceSquaredSymmetric(a: Vec3, b: Vec3)
    ensures DistanceSquared(a, b) == DistanceSquared(b, a)
    ensures DistanceSquared(a, a) == 0.0
  {
    assert (a.x - b.x) * (a.x - b.x) == (b.x - a.x) * (b.x - a.x);
    assert (a.y - b.y) * (a.y - b.y) == (b.y - a.y) * (b.y - a.y);
    assert (a.z - b.z) * (a.z - b.z) == (b.z - a.z) * (b.z - a.z);
  }
}
