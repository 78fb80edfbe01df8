/** The ring-arithmetic part of the three-component vector helpers (`V3` in src/math.ts). */
module V3 {

  datatype Vec3 = Vec3(x: real, y: real, z: real)

  const Zero := Vec3(0.0, 0.0, 0.0)
  const One := Vec3(1.0, 1.0, 1.0)

  /** Componentwise sum; subtracting either operand gives back the other. */
  function Add(a: Vec3, b: Vec3): (r: Vec3)
    ensures Minus(r, b) == a && Minus(r, a) == b
  {
    Vec3(a.x + b.x, a.y + b.y, a.z + b.z)
  }

  /** Componentwise difference; it vanishes exactly when the operands are equal. */
  function Minus(a: Vec3, b: Vec3): (r: Vec3)
    ensures r == Zero <==> a == b
  {
    Vec3(a.x - b.x, a.y - b.y, a.z - b.z)
  }

  /** Componentwise product. */
  function Times(a: Vec3, b: Vec3): (r: Vec3)
    ensures b == One ==> r == a
    ensures a == Zero || b == Zero ==> r == Zero
  {
    Vec3(a.x * b.x, a.y * b.y, a.z * b.z)
  }

  /** Componentwise quotient; multiplying back by the divisor restores the dividend. */
  function Divide(a: Vec3, b: Vec3): (r: Vec3)
    requires b.x != 0.0 && b.y != 0.0 && b.z != 0.0
    ensures Times(r, b) == a
  {
    Vec3(a.x / b.x, a.y / b.y, a.z / b.z)
  }

  /** Scalar product; a vector's product with itself is never negative. */
  function Dot(a: Vec3, b: Vec3): (r: real)
    ensures a == b ==> r >= 0.0
    ensures a == Zero || b == Zero ==> r == 0.0
  {
    a.x * b.x + a.y * b.y + a.z * b.z
  }

  /** Multiplication of every component by the scalar `k`. */
  function Scale(k: real, v: Vec3): (r: Vec3)
    ensures k == 1.0 ==> r == v
    ensures k == 0.0 ==> r == Zero
  {
    Vec3(k * v.x, k * v.y, k * v.z)
  }

  /** Vector product; the result is orthogonal to both operands. */
  function Cross(a: Vec3, b: Vec3): (r: Vec3)
    ensures Dot(a, r) == 0.0 && Dot(b, r) == 0.0
  {
    Vec3(a.y * b.z - a.z * b.y, a.z * b.x - a.x * b.z, a.x * b.y - a.y * b.x)
  }

  lemma AddCommutative(a: Vec3, b: Vec3)
    ensures Add(a, b) == Add(b, a)
  {
  }

  lemma TimesCommutative(a: Vec3, b: Vec3)
    ensures Times(a, b) == Times(b, a)
  {
  }

  lemma DotCommutative(a: Vec3, b: Vec3)
    ensures Dot(a, b) == Dot(b, a)
  {
  }

  lemma ScaleCompose(a: real, b: real, v: Vec3)
    ensures Scale(a, Scale(b, v)) == Scale(a * b, v)
  {
  }

  lemma CrossAntiSymmetric(a: Vec3, b: Vec3)
    ensures Cross(a, b) == Scale(-1.0, Cross(b, a))
    ensures Cross(a, a) == Zero
  {
  }
}

/** The ring-arithmetic part of the two-component vector helpers (`V2` in src/math.ts). */
module V2 {

  datatype Vec2 = Vec2(x: real, y: real)

  const Zero := Vec2(0.0, 0.0)
  const One := Vec2(1.0, 1.0)

  /** Componentwise sum; subtracting either operand gives back the other. */
  function Add(a: Vec2, b: Vec2): (r: Vec2)
    ensures Minus(r, b) == a && Minus(r, a) == b
  {
    Vec2(a.x + b.x, a.y + b.y)
  }

  /** Componentwise difference; it vanishes exactly when the operands are equal. */
  function Minus(a: Vec2, b: Vec2): (r: Vec2)
    ensures r == Zero <==> a == b
  {
    Vec2(a.x - b.x, a.y - b.y)
  }

  /** Componentwise product. */
  function Times(a: Vec2, b: Vec2): (r: Vec2)
    ensures b == One ==> r == a
    ensures a == Zero || b == Zero ==> r == Zero
  {
    Vec2(a.x * b.x, a.y * b.y)
  }

  /** Componentwise quotient; multiplying back by the divisor restores the dividend. */
  function Divide(a: Vec2, b: Vec2): (r: Vec2)
    requires b.x != 0.0 && b.y != 0.0
    ensures Times(r, b) == a
  {
    Vec2(a.x / b.x, a.y / b.y)
  }

  /** Scalar product; a vector's product with itself is never negative. */
  function Dot(a: Vec2, b: Vec2): (r: real)
    ensures a == b ==> r >= 0.0
    ensures a == Zero || b == Zero ==> r == 0.0
  {
    a.x * b.x + a.y * b.y
  }

  /** Multiplication of both components by the scalar `k`. */
  function Scale(k: real, v: Vec2): (r: Vec2)
    ensures k == 1.0 ==> r == v
    ensures k == 0.0 ==> r == Zero
  {
    Vec2(k * v.x, k * v.y)
  }

  /** The planar cross product, a scalar: the signed area spanned by `a` and `b`.
      It is zero for parallel operands, in particular for a vector with itself. */
  function Cross(a: Vec2, b: Vec2): (r: real)
    ensures a == b ==> r == 0.0
    ensures a == Zero || b == Zero ==> r == 0.0
  {
    a.x * b.y - a.y * b.x
  }

  lemma AddCommutative(a: Vec2, b: Vec2)
    ensures Add(a, b) == Add(b, a)
  {
  }

  lemma TimesCommutative(a: Vec2, b: Vec2)
    ensures Times(a, b) == Times(b, a)
  {
  }

  lemma DotCommutative(a: Vec2, b: Vec2)
    ensures Dot(a, b) == Dot(b, a)
  {
  }

  lemma ScaleCompose(a: real, b: real, v: Vec2)
    ensures Scale(a, Scale(b, v)) == Scale(a * b, v)
  {
  }

  lemma CrossAntiSymmetric(a: Vec2, b: Vec2)
    ensures Cross(a, b) == -Cross(b, a)
  {
  }
}
