/** Real-valued 2-D and 3-D vectors, the arithmetic the engine uses on them, and
    normalisation through a supplied square root. */
module Vectors {

  datatype Vec2 = Vec2(x: real, y: real)

  datatype Vec3 = Vec3(x: real, y: real, z: real)

  const Zero3 := Vec3(0.0, 0.0, 0.0)

  /** The identity on reals. `Sq` multiplies by it so that the solver treats a square
      like any other product of two terms. */
  function Id(r: real): (s: real)
    ensures s == r
  {
    r
  }

  lemma ProductPositive(a: real, b: real)
    requires (0.0 < a && 0.0 < b) || (a < 0.0 && b < 0.0)
    ensures 0.0 < a * b
  {
  }

  lemma SquareSign(r: real)
    ensures 0.0 <= r * Id(r)
    ensures r != 0.0 ==> 0.0 < r * Id(r)
  {
    if r != 0.0 {
      ProductPositive(r, Id(r));
    }
  }

  /** The square of `r`, never negative. */
  function Sq(r: real): (s: real)
    ensures 0.0 <= s
  {
    SquareSign(r);
    r * Id(r)
  }

  lemma SqPositive(r: real)
    requires r != 0.0
    ensures 0.0 < Sq(r)
  {
    SquareSign(r);
  }

  lemma SqProduct(k: real, r: real)
    ensures Sq(k * r) == Sq(k) * Sq(r)
  {
  }

  function Add2(a: Vec2, b: Vec2): Vec2 { Vec2(a.x + b.x, a.y + b.y) }
  function Sub2(a: Vec2, b: Vec2): Vec2 { Vec2(a.x - b.x, a.y - b.y) }
  function LengthSqr2(a: Vec2): real { Sq(a.x) + Sq(a.y) }

  function Add(a: Vec3, b: Vec3): Vec3 { Vec3(a.x + b.x, a.y + b.y, a.z + b.z) }
  function Sub(a: Vec3, b: Vec3): Vec3 { Vec3(a.x - b.x, a.y - b.y, a.z - b.z) }
  function Neg(a: Vec3): Vec3 { Vec3(-a.x, -a.y, -a.z) }
  function Scale(k: real, a: Vec3): Vec3 { Vec3(k * a.x, k * a.y, k * a.z) }
  /** `a * b` between two vec3 values is the dot product. */
  function Dot(a: Vec3, b: Vec3): real { a.x * b.x + a.y * b.y + a.z * b.z }
  /** `a & b` is the component-wise product. */
  function Mul(a: Vec3, b: Vec3): Vec3 { Vec3(a.x * b.x, a.y * b.y, a.z * b.z) }
  function LengthSqr(a: Vec3): real { Sq(a.x) + Sq(a.y) + Sq(a.z) }

  lemma LengthSqrZero(a: Vec3)
    ensures 0.0 <= LengthSqr(a)
    ensures LengthSqr(a) == 0.0 <==> a == Zero3
  {
    if a.x != 0.0 {
      SqPositive(a.x);
    } else if a.y != 0.0 {
      SqPositive(a.y);
    } else if a.z != 0.0 {
      SqPositive(a.z);
    }
  }

  lemma ScaleLengthSqr(k: real, a: Vec3)
    ensures LengthSqr(Scale(k, a)) == Sq(k) * LengthSqr(a)
  {
    SqProduct(k, a.x);
    SqProduct(k, a.y);
    SqProduct(k, a.z);
    Distribute(Sq(k * a.x), Sq(k * a.y), Sq(k * a.z), Sq(k), Sq(a.x), Sq(a.y), Sq(a.z), LengthSqr(a));
  }

  lemma Distribute(p1: real, p2: real, p3: real, k: real, q1: real, q2: real, q3: real, l: real)
    requires p1 == k * q1 && p2 == k * q2 && p3 == k * q3 && l == q1 + q2 + q3
    ensures p1 + p2 + p3 == k * l
  {
  }

  /** `sqrt` is a square root on the non-negative reals. */
  ghost predicate IsSqrt(sqrt: real -> real) {
    forall r :: 0.0 <= r ==> 0.0 <= sqrt(r) && Sq(sqrt(r)) == r
  }

  /** `length()`: the non-negative root of the squared length. */
  function Length(a: Vec3, sqrt: real -> real): (r: real)
    requires IsSqrt(sqrt)
    ensures 0.0 <= r && Sq(r) == LengthSqr(a)
    ensures r == 0.0 <==> a == Zero3
  {
    LengthSqrZero(a);
    var r := sqrt(LengthSqr(a));
    if r != 0.0 then SqPositive(r); r else r
  }

  /** `normalize()`: a positive multiple of `a` of unit length, so every component
      keeps its sign. The zero vector stays zero (the source multiplies its
      components by the inverse square root of 0). */
  function Normalized(a: Vec3, sqrt: real -> real): (r: Vec3)
    requires IsSqrt(sqrt)
    ensures a == Zero3 ==> r == Zero3
    ensures a != Zero3 ==> LengthSqr(r) == 1.0
    ensures SameSigns(a, r)
  {
    var s := Length(a, sqrt);
    if s == 0.0 then Zero3
    else
      UnitScale(a, s);
      InversePositive(s);
      ScaleSigns(1.0 / s, a);
      Scale(1.0 / s, a)
  }

  lemma UnitScale(a: Vec3, s: real)
    requires 0.0 < s && Sq(s) == LengthSqr(a)
    ensures LengthSqr(Scale(1.0 / s, a)) == 1.0
  {
    var k := 1.0 / s;
    ScaleLengthSqr(k, a);
    SqProduct(k, s);
    assert k * s == 1.0;
  }

  lemma InversePositive(s: real)
    requires 0.0 < s
    ensures 0.0 < 1.0 / s
  {
  }

  /** `a` and `b` agree in the sign of every component. */
  predicate SameSigns(a: Vec3, b: Vec3) {
    && (0.0 < a.x <==> 0.0 < b.x) && (0.0 < a.y <==> 0.0 < b.y) && (0.0 < a.z <==> 0.0 < b.z)
    && (a.x < 0.0 <==> b.x < 0.0) && (a.y < 0.0 <==> b.y < 0.0) && (a.z < 0.0 <==> b.z < 0.0)
  }

  /** A non-zero vector is normalised by a positive factor. */
  lemma NormalizingFactor(a: Vec3, sqrt: real -> real) returns (k: real)
    requires IsSqrt(sqrt) && a != Zero3
    ensures 0.0 < k && Normalized(a, sqrt) == Scale(k, a)
  {
    var s := Length(a, sqrt);
    k := 1.0 / s;
    InversePositive(s);
  }

  lemma ScaleSigns(k: real, a: Vec3)
    requires 0.0 < k
    ensures SameSigns(a, Scale(k, a))
  {
    PositiveFactor(k, a.x);
    PositiveFactor(k, a.y);
    PositiveFactor(k, a.z);
  }

  lemma PositiveFactor(k: real, r: real)
    requires 0.0 < k
    ensures 0.0 < r <==> 0.0 < k * r
    ensures r < 0.0 <==> k * r < 0.0
  {
    if 0.0 < r {
      ProductPositive(k, r);
    } else if r < 0.0 {
      ProductPositive(k, -r);
    }
  }

  function Abs(r: real): real { if r < 0.0 then -r else r }

  lemma SqAbs(a: real)
    ensures Sq(Abs(a)) == Sq(a)
  {
  }

  lemma SqSumLower(p: real, q: real)
    requires 0.0 <= p && 0.0 <= q
    ensures Sq(p) + Sq(q) <= Sq(p + q)
  {
    ProductNonNeg(p, q);
  }

  lemma ProductNonNeg(p: real, q: real)
    requires 0.0 <= p && 0.0 <= q
    ensures 0.0 <= p * q
  {
  }

  lemma HorizontalSum(a: real, b: real, s: real)
    requires 0.0 <= s && Sq(s) == Sq(a) + Sq(b)
    ensures s <= Abs(a) + Abs(b)
  {
    SqAbs(a);
    SqAbs(b);
    SqSumLower(Abs(a), Abs(b));
    if Abs(a) + Abs(b) < s {
      SqStrict(Abs(a) + Abs(b), s);
    }
  }

  lemma SqStrict(p: real, q: real)
    requires 0.0 <= p < q
    ensures Sq(p) < Sq(q)
  {
    ProductStrict(p, Id(p), q, Id(q));
  }

  lemma ProductStrict(a: real, b: real, c: real, d: real)
    requires 0.0 <= a < c && 0.0 <= b < d
    ensures a * b < c * d
  {
  }

  /** Dividing both horizontal components by the horizontal length leaves a direction
      whose absolute components add up to at least 1. */
  lemma DirectionSum(a: real, b: real, s: real)
    requires 0.0 < s && Sq(s) == Sq(a) + Sq(b)
    ensures 1.0 <= Abs(a / s) + Abs(b / s)
  {
    HorizontalSum(a, b, s);
    AbsQuotient(a, s);
    AbsQuotient(b, s);
    QuotientAtLeastOne(Abs(a), Abs(b), s);
  }

  lemma AbsQuotient(a: real, s: real)
    requires 0.0 < s
    ensures Abs(a / s) == Abs(a) / s
  {
  }

  lemma QuotientAtLeastOne(p: real, q: real, s: real)
    requires 0.0 < s <= p + q
    ensures 1.0 <= p / s + q / s
  {
  }

  /** Either horizontal component divided by the horizontal length lies in [-1, 1]. */
  lemma ComponentAtMostOne(a: real, b: real, s: real)
    requires 0.0 < s && Sq(s) == Sq(a) + Sq(b)
    ensures Abs(a / s) <= 1.0
  {
    SqAbs(a);
    if s < Abs(a) {
      SqStrict(s, Abs(a));
    }
    AbsQuotient(a, s);
    QuotientAtMostOne(Abs(a), s);
  }

  lemma QuotientAtMostOne(p: real, s: real)
    requires 0.0 < s && p <= s
    ensures p / s <= 1.0
  {
  }

  /** A horizontal length is zero exactly when both horizontal components are. */
  lemma HorizontalLengthZero(a: real, b: real, s: real)
    requires 0.0 <= s && Sq(s) == Sq(a) + Sq(b)
    ensures s == 0.0 <==> a == 0.0 && b == 0.0
  {
    if a != 0.0 {
      SqPositive(a);
    }
    if b != 0.0 {
      SqPositive(b);
    }
    if s != 0.0 {
      SqPositive(s);
    }
  }

  /** Dividing by a positive length keeps the sign. */
  lemma QuotientSigns(a: real, s: real)
    requires 0.0 < s
    ensures (a < 0.0 <==> a / s < 0.0) && (0.0 < a <==> 0.0 < a / s)
  {
    InversePositive(s);
    PositiveFactor(1.0 / s, a);
  }
}
