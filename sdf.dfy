/// The signed-distance primitives and operators of src/sdf.hpp.
/// Floats are modelled as reals.  The square root behind `length` is not
/// expressible in Dafny, so every distance that needs it takes the square
/// root as a parameter, and each lemma asks only that it be a true square
/// root at the points the lemma looks at (`SqrtAt`).
module SdfOps {

  datatype Vec2 = Vec2(x: real, y: real)
  datatype Vec3 = Vec3(x: real, y: real, z: real)

  const Origin: Vec3 := Vec3(0.0, 0.0, 0.0)

  /// `sqrt` returns the non-negative square root of `a`.
  predicate SqrtAt(sqrt: real -> real, a: real)
  {
    0.0 <= sqrt(a) && sqrt(a) * sqrt(a) == a
  }

  function Dot3(a: Vec3, b: Vec3): real
  {
    a.x * b.x + a.y * b.y + a.z * b.z
  }

  /// dot2(v) = dot(v, v) for a 2-vector: never negative, zero only at zero.
  function Dot2(v: Vec2): (r: real)
    ensures 0.0 <= r
    ensures r == 0.0 ==> v == Vec2(0.0, 0.0)
  {
    Square(v.x);
    Square(v.y);
    v.x * v.x + v.y * v.y
  }

  /// dot2(v) = dot(v, v) for a 3-vector: never negative, zero only at the origin.
  function Dot2Of3(v: Vec3): (r: real)
    ensures 0.0 <= r
    ensures r == 0.0 ==> v == Origin
  {
    Square(v.x);
    Square(v.y);
    Square(v.z);
    Dot3(v, v)
  }

  /// A square is non-negative, and it is zero only for zero.
  lemma Square(a: real)
    ensures 0.0 <= a * a
    ensures a * a == 0.0 ==> a == 0.0
  {
    if a * a == 0.0 && a != 0.0 {
      CancelFactor(a, a);
    }
  }

  /// x * y == 0 with y != 0 forces x == 0.
  lemma CancelFactor(x: real, y: real)
    requires x * y == 0.0 && y != 0.0
    ensures x == 0.0
  {
    assert x == (x * y) / y;
  }

  /// ndot(a, b) = a0*b0 - a1*b1.
  function NDot(a: Vec2, b: Vec2): real
  {
    a.x * b.x - a.y * b.y
  }

  /// ndot is symmetric, and ndot(v, v) differs from dot2(v) by 2*y^2.
  lemma NDotSymmetric(a: Vec2, b: Vec2)
    ensures NDot(a, b) == NDot(b, a)
    ensures NDot(a, a) + 2.0 * a.y * a.y == Dot2(a)
  {
  }

  /// length(v) = sqrt(dot(v, v)).
  function Length(v: Vec3, sqrt: real -> real): real
  {
    sqrt(Dot2Of3(v))
  }

  /// sphere(p, s) = length(p) - s.
  function Sphere(p: Vec3, s: real, sqrt: real -> real): real
  {
    Length(p, sqrt) - s
  }

  function Abs(a: real): real { if a < 0.0 then -a else a }
  function Max(a: real, b: real): real { if a < b then b else a }
  function Min(a: real, b: real): real { if a < b then a else b }

  function AbsV(v: Vec3): Vec3 { Vec3(Abs(v.x), Abs(v.y), Abs(v.z)) }
  function MaxV(v: Vec3, w: Vec3): Vec3 { Vec3(Max(v.x, w.x), Max(v.y, w.y), Max(v.z, w.z)) }
  function Sub(a: Vec3, b: Vec3): Vec3 { Vec3(a.x - b.x, a.y - b.y, a.z - b.z) }
  function Add(a: Vec3, b: Vec3): Vec3 { Vec3(a.x + b.x, a.y + b.y, a.z + b.z) }
  function Neg(a: Vec3): Vec3 { Vec3(-a.x, -a.y, -a.z) }

  /// q = |p| - b, the per-axis excess of p over the half extents b.
  function BoxExcess(p: Vec3, b: Vec3): Vec3 { Sub(AbsV(p), b) }

  /// The exterior term of box: length(max(q, 0)).
  function BoxOutside(q: Vec3, sqrt: real -> real): real
  {
    Length(MaxV(q, Origin), sqrt)
  }

  /// The interior term of box: min(max(qx, max(qy, qz)), 0).
  function BoxInside(q: Vec3): real
  {
    Min(Max(q.x, Max(q.y, q.z)), 0.0)
  }

  /// box as a function of the excess q.
  function BoxOfExcess(q: Vec3, sqrt: real -> real): real
  {
    BoxOutside(q, sqrt) + BoxInside(q)
  }

  /// box(p, b) = length(max(q, 0)) + min(max(qx, qy, qz), 0) with q = |p| - b.
  function Box(p: Vec3, b: Vec3, sqrt: real -> real): real
  {
    BoxOfExcess(BoxExcess(p, b), sqrt)
  }

  /// op_translate(p, t) = p - t.
  function OpTranslate(p: Vec3, t: Vec3): Vec3
  {
    Sub(p, t)
  }

  /// op_union(a, b) = min(a, b): below both, and one of them.
  function OpUnion(a: real, b: real): (r: real)
    ensures r <= a && r <= b
    ensures r == a || r == b
  {
    Min(a, b)
  }

  /// Union is commutative.
  lemma OpUnionCommutative(a: real, b: real)
    ensures OpUnion(a, b) == OpUnion(b, a)
  {
  }

  /// Translating by t and then by -t is the identity, and so is translating by 0.
  lemma OpTranslateInverse(p: Vec3, t: Vec3)
    ensures OpTranslate(OpTranslate(p, t), Neg(t)) == p
    ensures OpTranslate(p, Origin) == p
  {
  }

  /// A square root of 0 is 0, so lemmas below that need only this point ask
  /// for `sqrt(0.0) == 0.0`.
  lemma SqrtOfZero(sqrt: real -> real)
    requires SqrtAt(sqrt, 0.0)
    ensures sqrt(0.0) == 0.0
  {
    var s := sqrt(0.0);
    if s != 0.0 {
      CancelFactor(s, s);
    }
  }

  /// The non-negative square root of d*d is d.
  lemma SqrtOfSquare(d: real, sqrt: real -> real)
    requires 0.0 <= d && SqrtAt(sqrt, d * d)
    ensures sqrt(d * d) == d
  {
    var s := sqrt(d * d);
    if d == 0.0 {
      assert d * d == 0.0;
      SqrtOfZero(sqrt);
    } else {
      assert (s - d) * (s + d) == s * s - d * d;
      CancelFactor(s - d, s + d);
    }
  }

  /// At a point at distance d from the origin, sphere is d - s.
  lemma SphereDistance(p: Vec3, d: real, s: real, sqrt: real -> real)
    requires 0.0 <= d && Dot2Of3(p) == d * d && SqrtAt(sqrt, d * d)
    ensures Sphere(p, s, sqrt) == d - s
  {
    SqrtOfSquare(d, sqrt);
  }

  /// The origin has length zero.
  lemma Dot2OfOrigin()
    ensures Dot2Of3(Origin) == 0.0
  {
    assert Origin.x == 0.0 && Origin.y == 0.0 && Origin.z == 0.0;
  }

  /// The origin has length zero.
  lemma LengthAtOrigin(sqrt: real -> real)
    requires sqrt(0.0) == 0.0
    ensures Length(Origin, sqrt) == 0.0
  {
    Dot2OfOrigin();
  }

  /// At the origin, sphere is -s.
  lemma SphereAtOrigin(s: real, sqrt: real -> real)
    requires sqrt(0.0) == 0.0
    ensures Sphere(Origin, s, sqrt) == -s
  {
    LengthAtOrigin(sqrt);
  }

  /// The interior term of box is never positive.
  lemma BoxInsideNonPositive(q: Vec3)
    ensures BoxInside(q) <= 0.0
  {
  }

  /// The exterior term of box is never negative.
  lemma BoxOutsideNonNegative(q: Vec3, sqrt: real -> real)
    requires SqrtAt(sqrt, Dot2Of3(MaxV(q, Origin)))
    ensures 0.0 <= BoxOutside(q, sqrt)
  {
  }

  /// With every excess negative, the exterior term of box vanishes.
  lemma BoxOutsideVanishes(q: Vec3, sqrt: real -> real)
    requires sqrt(0.0) == 0.0
    requires q.x < 0.0 && q.y < 0.0 && q.z < 0.0
    ensures BoxOutside(q, sqrt) == 0.0
  {
    assert MaxV(q, Origin) == Origin;
    LengthAtOrigin(sqrt);
  }

  /// With every excess negative, box is the largest excess.
  lemma BoxOfNegativeExcess(q: Vec3, sqrt: real -> real)
    requires sqrt(0.0) == 0.0
    requires q.x < 0.0 && q.y < 0.0 && q.z < 0.0
    ensures BoxOfExcess(q, sqrt) == Max(q.x, Max(q.y, q.z))
  {
    BoxOutsideVanishes(q, sqrt);
  }

  /// A point strictly inside the box on every axis: box is max(qx, qy, qz).
  lemma BoxStrictlyInside(p: Vec3, b: Vec3, sqrt: real -> real)
    requires sqrt(0.0) == 0.0
    requires BoxExcess(p, b).x < 0.0 && BoxExcess(p, b).y < 0.0 && BoxExcess(p, b).z < 0.0
    ensures Box(p, b, sqrt) == Max(BoxExcess(p, b).x, Max(BoxExcess(p, b).y, BoxExcess(p, b).z))
  {
    BoxOfNegativeExcess(BoxExcess(p, b), sqrt);
  }
}
