/**
 * Two-dimensional vector algebra shared by geographic coordinates
 * (x = longitude, y = latitude) and screen points, over exact reals.
 */
module Vectors {

  /** A point or displacement in the plane. */
  datatype Vec = Vec(x: real, y: real)

  /** Componentwise difference `lhs - rhs`. */
  function Sub(lhs: Vec, rhs: Vec): (r: Vec)
    ensures r.x == lhs.x - rhs.x && r.y == lhs.y - rhs.y
  {
    Vec(lhs.x - rhs.x, lhs.y - rhs.y)
  }

  /** Componentwise sum `lhs + rhs`. */
  function Add(lhs: Vec, rhs: Vec): (r: Vec)
    ensures r.x == lhs.x + rhs.x && r.y == lhs.y + rhs.y
  {
    Vec(lhs.x + rhs.x, lhs.y + rhs.y)
  }

  /** Scalar multiple `k * v`. */
  function Scale(k: real, v: Vec): (r: Vec)
    ensures r.x == k * v.x && r.y == k * v.y
  {
    Vec(k * v.x, k * v.y)
  }

  /** Dot product. */
  function Dot(a: Vec, b: Vec): (r: real)
    ensures r == b.x * a.x + b.y * a.y
  {
    a.x * b.x + a.y * b.y
  }

  /** Squared Euclidean distance between two points. */
  function SquaredDistance(a: Vec, b: Vec): (r: real)
    ensures r >= 0.0
  {
    var d := Sub(a, b);
    DotSelfNonNegative(d);
    Dot(d, d)
  }

  /** The point `s1 + t * (s2 - s1)` of the line through s1 and s2. */
  function Along(s1: Vec, s2: Vec, t: real): Vec
  {
    Add(s1, Scale(t, Sub(s2, s1)))
  }

  /** `min(1, max(0, lambda))`. */
  function Clamp(lam: real): (r: real)
    ensures 0.0 <= r <= 1.0
    ensures 0.0 <= lam <= 1.0 ==> r == lam
    ensures lam < 0.0 ==> r == 0.0
    ensures lam > 1.0 ==> r == 1.0
  {
    if 1.0 < (if 0.0 < lam then lam else 0.0) then 1.0
    else if 0.0 < lam then lam else 0.0
  }

  /**
   * The projection parameter of p on the line through s1 and s2. The source
   * divides by the squared length of the segment without a guard, so a
   * zero-length segment is excluded.
   */
  function Lambda(p: Vec, s1: Vec, s2: Vec): (r: real)
    requires s1 != s2
    ensures Dot(Sub(s2, s1), Sub(p, Along(s1, s2, r))) == 0.0
  {
    var d := Sub(s2, s1);
    var q := Sub(p, s1);
    DotSelfPositive(d);
    var t := Dot(d, q) / Dot(d, d);
    QuotientTimesDivisor(Dot(d, q), Dot(d, d));
    OrthogonalResidual(d.x, d.y, q.x, q.y, t);
    assert Sub(p, Along(s1, s2, t)) == Vec(q.x - t * d.x, q.y - t * d.y);
    t
  }

  lemma QuotientTimesDivisor(n: real, m: real)
    requires m > 0.0
    ensures (n / m) * m == n
  {
  }

  /** With t the projection parameter, the residual q - t d is orthogonal to d. */
  lemma OrthogonalResidual(dx: real, dy: real, qx: real, qy: real, t: real)
    requires t * (dx * dx + dy * dy) == dx * qx + dy * qy
    ensures dx * (qx - t * dx) + dy * (qy - t * dy) == 0.0
  {
    assert dx * (qx - t * dx) == dx * qx - t * (dx * dx);
    assert dy * (qy - t * dy) == dy * qy - t * (dy * dy);
    assert t * (dx * dx + dy * dy) == t * (dx * dx) + t * (dy * dy);
  }

  /**
   * `p.closestPoint(on: (s1, s2))`: the point of the segment obtained by
   * projecting p on its line and clamping the parameter to [0, 1].
   */
  function ClosestPoint(p: Vec, s1: Vec, s2: Vec): (r: Vec)
    requires s1 != s2
    ensures exists t :: 0.0 <= t <= 1.0 && r == Along(s1, s2, t)
  {
    Along(s1, s2, Clamp(Lambda(p, s1, s2)))
  }

  lemma SubAddCancels(a: Vec, b: Vec)
    ensures Add(Sub(a, b), b) == a
  {
  }

  lemma ScaleIdentity(v: Vec)
    ensures Scale(1.0, v) == v
  {
  }

  lemma ScaleZero(v: Vec)
    ensures Scale(0.0, v) == Vec(0.0, 0.0)
  {
  }

  lemma DotSymmetric(a: Vec, b: Vec)
    ensures Dot(a, b) == Dot(b, a)
  {
  }

  lemma DotSelfNonNegative(v: Vec)
    ensures Dot(v, v) >= 0.0
  {
    DotOfEqualNonNegative(v, v);
  }

  lemma DotSelfPositive(v: Vec)
    requires v != Vec(0.0, 0.0)
    ensures Dot(v, v) > 0.0
  {
    DotOfEqualPositive(v, v);
  }

  // The two lemmas below take the vector twice so that the solver sees
  // products of distinct terms rather than squares, which it handles poorly.
  lemma DotOfEqualNonNegative(u: Vec, v: Vec)
    requires u == v
    ensures Dot(u, v) >= 0.0
  {
    ProductOfEqualNonNegative(u.x, v.x);
    ProductOfEqualNonNegative(u.y, v.y);
  }

  lemma DotOfEqualPositive(u: Vec, v: Vec)
    requires u == v && v != Vec(0.0, 0.0)
    ensures Dot(u, v) > 0.0
  {
    if u.x != 0.0 {
      ProductOfEqualPositive(u.x, v.x);
      ProductOfEqualNonNegative(u.y, v.y);
    } else {
      assert u.x * v.x == 0.0;
      assert Dot(u, v) == u.y * v.y;
      ProductOfEqualPositive(u.y, v.y);
    }
  }

  lemma ProductOfEqualPositive(a: real, b: real)
    requires a == b && a != 0.0
    ensures a * b > 0.0
  {
    if a < 0.0 {
      assert b < 0.0;
    }
  }

  lemma ProductOfEqualNonNegative(a: real, b: real)
    requires a == b
    ensures a * b >= 0.0
  {
    if a < 0.0 {
      assert b < 0.0;
    }
  }

  lemma ProductNonNegative(a: real, b: real)
    requires a >= 0.0 && b >= 0.0
    ensures a * b >= 0.0
  {
  }

  lemma ProductNonPositive(a: real, b: real)
    requires a <= 0.0 && b <= 0.0
    ensures a * b >= 0.0
  {
    assert a * b == (-a) * (-b);
  }

  /** The start of the segment projects onto itself. */
  lemma ClosestPointOfStart(s1: Vec, s2: Vec)
    requires s1 != s2
    ensures ClosestPoint(s1, s1, s2) == s1
  {
    var d := Sub(s2, s1);
    DotSelfPositive(d);
    assert Sub(s1, s1) == Vec(0.0, 0.0);
    assert Dot(d, Sub(s1, s1)) == 0.0;
    assert Lambda(s1, s1, s2) == 0.0 / Dot(d, d) == 0.0;
  }

  /** The end of the segment projects onto itself. */
  lemma ClosestPointOfEnd(s1: Vec, s2: Vec)
    requires s1 != s2
    ensures ClosestPoint(s2, s1, s2) == s2
  {
    var d := Sub(s2, s1);
    DotSelfPositive(d);
    assert Lambda(s2, s1, s2) == Dot(d, d) / Dot(d, d);
    assert Lambda(s2, s1, s2) == 1.0;
  }

  /** The quadratic `qq - 2 t dq + t^2 dd` in the parameter t. */
  function Quadratic(qq: real, dq: real, dd: real, t: real): real
  {
    qq - 2.0 * t * dq + t * t * dd
  }

  /**
   * Squared distance from p to the point of parameter t, as a quadratic in t
   * with q = p - s1 and d = s2 - s1.
   */
  lemma SquaredDistanceAlong(p: Vec, s1: Vec, s2: Vec, t: real)
    ensures SquaredDistance(p, Along(s1, s2, t))
         == Quadratic(Dot(Sub(p, s1), Sub(p, s1)), Dot(Sub(s2, s1), Sub(p, s1)),
                      Dot(Sub(s2, s1), Sub(s2, s1)), t)
  {
    AlongForm(p, s1, s2, t);
    DotForms(p, s1, s2);
    SquareExpansion(p.x - s1.x, s2.x - s1.x, p.y - s1.y, s2.y - s1.y, t);
  }

  /** The squared distance to a point of the segment, in coordinates. */
  lemma AlongForm(p: Vec, s1: Vec, s2: Vec, t: real)
    ensures SquaredDistance(p, Along(s1, s2, t))
         == (p.x - (s1.x + t * (s2.x - s1.x))) * (p.x - (s1.x + t * (s2.x - s1.x)))
          + (p.y - (s1.y + t * (s2.y - s1.y))) * (p.y - (s1.y + t * (s2.y - s1.y)))
  {
    var a := Along(s1, s2, t);
    assert a.x == s1.x + t * (s2.x - s1.x) && a.y == s1.y + t * (s2.y - s1.y);
  }

  /** The three dot products of the expansion, in coordinates. */
  lemma DotForms(p: Vec, s1: Vec, s2: Vec)
    ensures Dot(Sub(p, s1), Sub(p, s1)) == (p.x - s1.x) * (p.x - s1.x) + (p.y - s1.y) * (p.y - s1.y)
    ensures Dot(Sub(s2, s1), Sub(p, s1)) == (s2.x - s1.x) * (p.x - s1.x) + (s2.y - s1.y) * (p.y - s1.y)
    ensures Dot(Sub(s2, s1), Sub(s2, s1)) == (s2.x - s1.x) * (s2.x - s1.x) + (s2.y - s1.y) * (s2.y - s1.y)
  {
  }

  /** The coordinate form of the expansion above. */
  lemma SquareExpansion(a1: real, b1: real, a2: real, b2: real, t: real)
    ensures (a1 - t * b1) * (a1 - t * b1) + (a2 - t * b2) * (a2 - t * b2)
         == Quadratic(a1 * a1 + a2 * a2, b1 * a1 + b2 * a2, b1 * b1 + b2 * b2, t)
  {
    ComponentSquare(a1, b1, t);
    ComponentSquare(a2, b2, t);
    QuadraticSplit(a1 * a1, a2 * a2, b1 * a1, b2 * a2, b1 * b1, b2 * b2, t);
  }

  lemma ComponentSquare(a: real, b: real, t: real)
    ensures (a - t * b) * (a - t * b) == a * a - 2.0 * t * (b * a) + t * t * (b * b)
  {
  }

  lemma QuadraticSplit(a1: real, a2: real, b1: real, b2: real, c1: real, c2: real, t: real)
    ensures Quadratic(a1 + a2, b1 + b2, c1 + c2, t)
         == (a1 - 2.0 * t * b1 + t * t * c1) + (a2 - 2.0 * t * b2 + t * t * c2)
  {
  }

  lemma QuadraticGap(qq: real, dq: real, dd: real, t: real, c: real, lam: real)
    requires dq == lam * dd
    ensures Quadratic(qq, dq, dd, t) - Quadratic(qq, dq, dd, c)
         == dd * ((t - c) * (t + c - 2.0 * lam))
  {
  }

  /** With positive leading coefficient, the clamped vertex minimises the quadratic on [0, 1]. */
  lemma QuadraticMinimum(qq: real, dq: real, dd: real, t: real, lam: real)
    requires dd > 0.0
    requires dq == lam * dd
    requires 0.0 <= t <= 1.0
    ensures Quadratic(qq, dq, dd, Clamp(lam)) <= Quadratic(qq, dq, dd, t)
  {
    var c := Clamp(lam);
    QuadraticGap(qq, dq, dd, t, c, lam);
    var k := (t - c) * (t + c - 2.0 * lam);
    if lam < 0.0 {
      ProductNonNegative(t - c, t + c - 2.0 * lam);
    } else if lam > 1.0 {
      ProductNonPositive(t - c, t + c - 2.0 * lam);
    } else {
      assert t + c - 2.0 * lam == t - c;
      if t >= c {
        ProductNonNegative(t - c, t - c);
      } else {
        ProductNonPositive(t - c, t - c);
      }
    }
    ProductNonNegative(dd, k);
  }

  /**
   * No point of the segment is closer to p than the clamped projection.
   */
  lemma ClosestPointIsNearest(p: Vec, s1: Vec, s2: Vec, t: real)
    requires s1 != s2
    requires 0.0 <= t <= 1.0
    ensures SquaredDistance(p, ClosestPoint(p, s1, s2)) <= SquaredDistance(p, Along(s1, s2, t))
  {
    var lam := Lambda(p, s1, s2);
    assert ClosestPoint(p, s1, s2) == Along(s1, s2, Clamp(lam));
    AlongClampIsNearest(p, s1, s2, t, lam);
  }

  lemma AlongClampIsNearest(p: Vec, s1: Vec, s2: Vec, t: real, lam: real)
    requires s1 != s2
    requires 0.0 <= t <= 1.0
    requires lam == Lambda(p, s1, s2)
    ensures SquaredDistance(p, Along(s1, s2, Clamp(lam))) <= SquaredDistance(p, Along(s1, s2, t))
  {
    var qq := Dot(Sub(p, s1), Sub(p, s1));
    var dq := Dot(Sub(s2, s1), Sub(p, s1));
    var dd := Dot(Sub(s2, s1), Sub(s2, s1));
    var c := Clamp(lam);
    var near := SquaredDistance(p, Along(s1, s2, c));
    var other := SquaredDistance(p, Along(s1, s2, t));
    assert near == Quadratic(qq, dq, dd, c) by {
      SquaredDistanceAlong(p, s1, s2, c);
    }
    assert other == Quadratic(qq, dq, dd, t) by {
      SquaredDistanceAlong(p, s1, s2, t);
    }
    assert Quadratic(qq, dq, dd, c) <= Quadratic(qq, dq, dd, t) by {
      DotSelfPositive(Sub(s2, s1));
      QuotientScales(dq, dd, lam);
      QuadraticMinimum(qq, dq, dd, t, lam);
    }
  }

  lemma QuotientScales(n: real, m: real, q: real)
    requires m != 0.0 && q == n / m
    ensures n == q * m
  {
  }
}
