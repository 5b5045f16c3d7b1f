/**
 The points of the curve with the sum of section 2.2.1 of SEC 1 v2.0, and ScalarMult as repeated
 addition of them. Of that sum, only that it is associative is taken as a hypothesis.
 */
module Sec1 {
  import opened Wrappers
  import opened Bytes
  import opened ModArith
  import opened Curve
  import opened CurveLaw
  import opened ScalarLaw

  /** None is the point at infinity. */
  type Point = Option<Affine>

  ghost predicate OnCurve(p: Point, B: int, m: int)
    requires m > 0
  {
    p.Some? ==>
      && 0 <= p.value.x < m && 0 <= p.value.y < m
      && Cong(p.value.y * p.value.y, Cube(p.value.x) + B, m)
  }

  /** rise / run modulo m; 0 when there is no such number. */
  function Slope(run: int, rise: int, m: int): int
    requires m > 0
  {
    match ModInverse(run, m)
    case None => 0
    case Some(w) => w * rise
  }

  /** Where the line of slope l through a meets the curve for the third time, mirrored; bx is the other abscissa. */
  function Third(l: int, a: Affine, bx: int, m: int): Affine
    requires m > 0
  {
    var x := (l * l - a.x - bx) % m;
    Affine(x, (l * (a.x - x) - a.y) % m)
  }

  /** Rules 1 to 5 of section 2.2.1. */
  function Sum(p: Point, q: Point, m: int): Point
    requires m > 0
  {
    match (p, q)
    case (None, _) => q
    case (_, None) => p
    case (Some(a), Some(b)) =>
      if a.x != b.x then Some(Third(Slope(b.x - a.x, b.y - a.y, m), a, b.x, m))
      else if (a.y + b.y) % m == 0 then None
      else Some(Third(Slope(2 * a.y, 3 * (a.x * a.x), m), a, a.x, m))
  }

  function Opposite(p: Point, m: int): Point
    requires m > 0
  {
    match p
    case None => None
    case Some(a) => Some(Affine(a.x, (-a.y) % m))
  }

  /** p + p + ... + p, n times. */
  function Times(p: Point, n: nat, m: int): Point
    requires m > 0
  {
    if n == 0 then None else Sum(p, Times(p, n - 1, m), m)
  }

  // ---------- the formulas compute this sum ----------

  /** The triple with z = 1 of an affine point. */
  function Plain(a: Affine): Jac {
    Jac(a.x, a.y, 1)
  }

  lemma ThirdIsUnique(l: int, a: Affine, bx: int, c: Affine, m: int)
    requires m > 0 && ThirdPoint(l, a.x, a.y, bx, c, m)
    ensures c == Third(l, a, bx, m)
  {
    SmallCong(c.x, l * l - a.x - bx, m);
    SmallCong(c.y, l * (a.x - c.x) - a.y, m);
  }

  lemma SmallCong(x: int, y: int, m: int)
    requires m > 0 && 0 <= x < m && Cong(x, y, m)
    ensures x == y % m
  {
    DivModUnique(x, 0, x, m);
  }

  /** Different remainders are not congruent. */
  lemma Apart(x: int, y: int, m: int)
    requires m > 0 && 0 <= x < m && 0 <= y < m
    ensures Cong(x, y, m) <==> x == y
  {
    DivModUnique(x, 0, x, m);
    DivModUnique(y, 0, y, m);
  }

  lemma SlopeIs(run: int, rise: int, m: int)
    requires IsPrime(m) && !Cong(run, 0, m)
    ensures Cong(Slope(run, rise, m) * run, rise, m)
  {
    PrimeInvertible(run, m);
    var w := ModInverse(run, m).value;
    CongMul(run * w, 1, rise, rise, m);
    assert w * rise * run == run * w * rise;
  }

  /** Points with different abscissae: the sum is what addJacobian and affineFromJacobian give. */
  lemma SumIsAdd(a: Affine, b: Affine, B: int, m: int)
    requires IsPrime(m) && m != 2 && OnCurve(Some(a), B, m) && OnCurve(Some(b), B, m) && a.x != b.x
    ensures Sum(Some(a), Some(b), m) == AffineOf(JacAdd(Plain(a), Plain(b), m), m)
    ensures Sum(Some(a), Some(b), m).Some?
  {
    hide AffineOf, JacAdd, Slope, Third;
    var l := Slope(b.x - a.x, b.y - a.y, m);
    Apart(a.x, b.x, m);
    CongIffZero(b.x, a.x, m);
    SlopeIs(b.x - a.x, b.y - a.y, m);
    AddIsChord(a, b, m);
    assert ChordSlope(l, a, b, m);
    ThirdIsUnique(l, a, b.x, AffineOf(JacAdd(Plain(a), Plain(b), m), m).value, m);
  }

  /** The sum of a point and itself is what doubleJacobian and affineFromJacobian give. */
  lemma SumIsDouble(a: Affine, B: int, m: int)
    requires IsPrime(m) && m != 2 && OnCurve(Some(a), B, m)
    ensures Sum(Some(a), Some(a), m) == AffineOf(JacDouble(Plain(a), m), m)
    ensures Sum(Some(a), Some(a), m) == None <==> Cong(a.y, 0, m)
  {
    hide AffineOf, JacDouble, Slope, Third;
    var l := Slope(2 * a.y, 3 * (a.x * a.x), m);
    DoubleIsTangent(a, m);
    TwiceVanishes(a.y, m);
    if !Cong(a.y, 0, m) {
      SlopeIs(2 * a.y, 3 * (a.x * a.x), m);
      assert TangentSlope(l, a, m);
      ThirdIsUnique(l, a, a.x, AffineOf(JacDouble(Plain(a), m), m).value, m);
    }
  }

  /** Points with the same abscissa are equal or opposite. */
  lemma SameAbscissa(a: Affine, b: Affine, B: int, m: int)
    requires IsPrime(m) && OnCurve(Some(a), B, m) && OnCurve(Some(b), B, m) && a.x == b.x
    ensures (a.y + b.y) % m == 0 || a == b
    ensures (a.y + b.y) % m == 0 ==> Some(a) == Opposite(Some(b), m)
  {
    if !Cong(a.y + b.y, 0, m) && !Cong(a.y - b.y, 0, m) {
      PrimeProduct(a.y + b.y, a.y - b.y, m);
      assert (a.y + b.y) * (a.y - b.y) == a.y * a.y - b.y * b.y;
      CongIffZero(a.y * a.y, b.y * b.y, m);
    }
    CongIffZero(a.y, b.y, m);
    Apart(a.y, b.y, m);
    if Cong(a.y + b.y, 0, m) {
      assert a.y - (-b.y) == a.y + b.y;
      CongIffZero(a.y, -b.y, m);
      SmallCong(a.y, -b.y, m);
    }
  }

  // ---------- points and triples ----------

  /** The point a triple stands for. */
  function PointOf(p: Jac, m: int): Point
    requires m > 0
  {
    AffineOf(p, m)
  }

  /** It is a point of the curve, infinity exactly when z vanishes, and a scaling away from its plain triple. */
  lemma Representative(p: Jac, B: int, m: int)
    requires IsPrime(m) && OnJac(p, B, m)
    ensures OnCurve(PointOf(p, m), B, m) && (PointOf(p, m) == None <==> Cong(p.z, 0, m))
    ensures PointOf(p, m).Some? ==> ModInverse(p.z, m).Some? && ScaledBy(p, Plain(PointOf(p, m).value), p.z, m)
  {
    PrimeInvertible(p.z, m);
    if PointOf(p, m).Some? {
      AffineRepresents(p, m);
      AffineOnCurve(p, B, m);
    }
  }

  lemma PlainPoint(a: Affine, B: int, m: int)
    requires IsPrime(m) && OnCurve(Some(a), B, m)
    ensures OnJac(Plain(a), B, m) && PointOf(Plain(a), m) == Some(a)
  {
    assert B * (Cube(1) * Cube(1)) == B;
    PrimeInvertible(1, m);
    Apart(1, 0, m);
    assert Represents(Plain(a), a.x, a.y, m);
    AffineOfRepresented(Plain(a), a.x, a.y, m);
    DivModUnique(a.x, 0, a.x, m);
    DivModUnique(a.y, 0, a.y, m);
  }

  lemma SumOnCurve(p: Point, q: Point, B: int, m: int)
    requires IsPrime(m) && m != 2 && OnCurve(p, B, m) && OnCurve(q, B, m)
    ensures OnCurve(Sum(p, q, m), B, m)
  {
    hide OnJac, AffineOf, JacAdd, JacDouble;
    if p.Some? && q.Some? {
      var a, b := p.value, q.value;
      PlainPoint(a, B, m);
      PlainPoint(b, B, m);
      if a.x != b.x {
        SumIsAdd(a, b, B, m);
        AddKeepsCurve(Plain(a), Plain(b), B, m);
        Representative(JacAdd(Plain(a), Plain(b), m), B, m);
      } else {
        SameAbscissa(a, b, B, m);
        SumIsDouble(a, B, m);
        DoubleKeepsCurve(Plain(a), B, m);
        Representative(JacDouble(Plain(a), m), B, m);
      }
    }
  }

  lemma OppositeOnCurve(p: Point, B: int, m: int)
    requires m > 0 && OnCurve(p, B, m)
    ensures OnCurve(Opposite(p, m), B, m) && Sum(Opposite(p, m), p, m) == None
  {
    hide Cube;
    if p.Some? {
      OppositeOrdinate(p.value.y, m);
    }
  }

  lemma OppositeOrdinate(y: int, m: int)
    requires m > 0
    ensures var n := (-y) % m;
            0 <= n < m && Cong(n * n, y * y, m) && (n + y) % m == 0
  {
    CongMod(-y, m);
    CongSq((-y) % m, -y, m);
    assert (-y) * (-y) == y * y;
    CongAdd((-y) % m, -y, y, y, m);
    DivModUnique(0, 0, 0, m);
  }

  // ---------- the homomorphism ----------

  /** doubleJacobian doubles, whichever triple stands for the point. */
  lemma DoubleAdds(p: Jac, B: int, m: int)
    requires IsPrime(m) && m != 2 && OnJac(p, B, m)
    ensures PointOf(JacDouble(p, m), m) == Sum(PointOf(p, m), PointOf(p, m), m)
  {
    hide OnJac, AffineOf, JacDouble, JacAdd, ScaledBy, Sum;
    Representative(p, B, m);
    DoubleKeepsCurve(p, B, m);
    Representative(JacDouble(p, m), B, m);
    if PointOf(p, m).Some? {
      var a := PointOf(p, m).value;
      SumIsDouble(a, B, m);
      AffineIndependentOfScale(p, Plain(a), p.z, p, Plain(a), p.z, m);
    } else {
      DoubleOfInfinity(p, m);
      SumWithInfinity(None, m);
    }
  }

  lemma DoubleOfInfinity(p: Jac, m: int)
    requires m > 0 && Cong(p.z, 0, m)
    ensures Cong(JacDouble(p, m).z, 0, m)
  {
    CongMul(p.y, p.y, p.z, 0, m);
    CongMul(2, 2, p.y * p.z, 0, m);
    CongMod(2 * (p.y * p.z), m);
  }

  /** The chord formula's H vanishes exactly when the abscissae are equal. */
  lemma SameAbscissaIff(p: Jac, q: Jac, B: int, m: int)
    requires IsPrime(m) && OnJac(p, B, m) && OnJac(q, B, m) && !Cong(p.z, 0, m) && !Cong(q.z, 0, m)
    ensures PointOf(p, m).Some? && PointOf(q, m).Some?
    ensures Cong(H(p, q), 0, m) <==> PointOf(p, m).value.x == PointOf(q, m).value.x
  {
    hide OnJac, AffineOf;
    Representative(p, B, m);
    Representative(q, B, m);
    var a, b, c, d := PointOf(p, m).value, PointOf(q, m).value, p.z * p.z, q.z * q.z;
    ScaledStages(p.x, q.x, c, d, a.x, b.x, m);
    PrimeProduct(p.z, p.z, m);
    PrimeProduct(q.z, q.z, m);
    PrimeProduct(c, d, m);
    FactorVanishes(c * d, b.x - a.x, m);
    CongIffZero(b.x, a.x, m);
    Apart(a.x, b.x, m);
  }

  /** H of two triples is the difference of the abscissae, scaled. */
  lemma ScaledStages(px: int, qx: int, c: int, d: int, ax: int, bx: int, m: int)
    requires m > 0 && Cong(px, c * ax, m) && Cong(qx, d * bx, m)
    ensures Cong(qx * c - px * d, (c * d) * (bx - ax), m)
  {
    CongMul(px, c * ax, d, d, m);
    CongMul(qx, d * bx, c, c, m);
    CongSub(qx * c, d * bx * c, px * d, c * ax * d, m);
    ScaledDifference(c, d, ax, bx);
  }

  lemma FactorVanishes(k: int, x: int, m: int)
    requires IsPrime(m) && !Cong(k, 0, m)
    ensures Cong(k * x, 0, m) <==> Cong(x, 0, m)
  {
    if Cong(x, 0, m) {
      CongMul(k, k, x, 0, m);
    } else {
      PrimeProduct(k, x, m);
    }
  }

  lemma ScaledDifference(c: int, d: int, x: int, y: int)
    ensures d * y * c - c * x * d == (c * d) * (y - x)
  {
  }

  /** addJacobian adds, away from its exceptional cases; in those the points are equal, opposite or infinity. */
  lemma AddAdds(p: Jac, q: Jac, B: int, m: int)
    requires IsPrime(m) && m != 2 && OnJac(p, B, m) && OnJac(q, B, m)
    ensures var a, b := PointOf(p, m), PointOf(q, m);
            if Exceptional(p, q, m) then a == None || b == None || a == b || a == Opposite(b, m)
            else PointOf(JacAdd(p, q, m), m) == Sum(a, b, m)
  {
    hide OnJac, AffineOf, JacDouble, JacAdd, ScaledBy, Sum;
    Representative(p, B, m);
    Representative(q, B, m);
    if PointOf(p, m).Some? && PointOf(q, m).Some? {
      var a, b := PointOf(p, m).value, PointOf(q, m).value;
      SameAbscissaIff(p, q, B, m);
      if a.x == b.x {
        SameAbscissa(a, b, B, m);
      } else {
        SumIsAdd(a, b, B, m);
        AffineIndependentOfScale(p, Plain(a), p.z, q, Plain(b), q.z, m);
      }
    }
  }

  ghost predicate AssociatesAt(p: Point, q: Point, r: Point, m: int)
    requires m > 0
  {
    Sum(Sum(p, q, m), r, m) == Sum(p, Sum(q, r, m), m)
  }

  /** The sum is associative on the curve. */
  ghost predicate SumAssociates(B: int, m: int)
    requires m > 0
  {
    forall p, q, r :: OnCurve(p, B, m) && OnCurve(q, B, m) && OnCurve(r, B, m) ==> AssociatesAt(p, q, r, m)
  }

  ghost function CurveGroup(B: int, m: int): Group<Point>
    requires m > 0
  {
    Group(None, (p, q) => Sum(p, q, m), p => Opposite(p, m), p => OnCurve(p, B, m))
  }

  lemma CurveIsGroup(B: int, m: int)
    requires IsPrime(m) && m != 2 && SumAssociates(B, m)
    ensures IsGroup(CurveGroup(B, m))
  {
    hide OnCurve, Sum, Opposite;
    var g := CurveGroup(B, m);
    forall p, q | OnCurve(p, B, m) && OnCurve(q, B, m)
      ensures OnCurve(Sum(p, q, m), B, m)
    {
      SumOnCurve(p, q, B, m);
    }
    forall p | OnCurve(p, B, m)
      ensures OnCurve(Opposite(p, m), B, m) && Sum(Opposite(p, m), p, m) == None
    {
      OppositeOnCurve(p, B, m);
    }
    forall p, q, r | OnCurve(p, B, m) && OnCurve(q, B, m) && OnCurve(r, B, m)
      ensures Associates(g, p, q, r)
    {
      assert AssociatesAt(p, q, r, m);
    }
    forall p
      ensures Sum(None, p, m) == p && Sum(p, None, m) == p
    {
      SumWithInfinity(p, m);
    }
    InfinityOnCurve(B, m);
  }

  lemma SumWithInfinity(p: Point, m: int)
    requires m > 0
    ensures Sum(None, p, m) == p && Sum(p, None, m) == p
  {
  }

  lemma InfinityOnCurve(B: int, m: int)
    requires m > 0
    ensures OnCurve(None, B, m)
  {
  }

  /** Taking a triple to its point is the homomorphism that the scalar loop needs. */
  lemma PointOfIsHomomorphism(B: int, m: int)
    requires IsPrime(m) && m != 2
    ensures IsHomomorphism(p => PointOf(p, m), CurveGroup(B, m), B, m)
  {
    hide OnJac, OnCurve, Sum, Opposite, JacAdd, JacDouble, Exceptional;
    var phi, g := (p: Jac) => PointOf(p, m), CurveGroup(B, m);
    forall p, q | OnJac(p, B, m) && OnJac(q, B, m)
      ensures RespectsFormulas(phi, g, p, q, m)
    {
      DoubleAdds(p, B, m);
      AddAdds(p, q, B, m);
    }
    forall p | OnJac(p, B, m)
      ensures g.has(phi(p)) && RespectsAffine(phi, g, p, m)
    {
      Representative(p, B, m);
      if PointOf(p, m).Some? {
        PlainPoint(PointOf(p, m).value, B, m);
      }
    }
  }

  // ---------- scalar multiplication ----------

  lemma {:induction false} MultipleIsTimes(p: Point, n: nat, B: int, m: int)
    requires m > 0
    ensures Multiple(CurveGroup(B, m), p, n) == Times(p, n, m)
  {
    hide Sum;
    if n > 0 {
      MultipleIsTimes(p, n - 1, B, m);
    }
  }

  /**
   For a prime P other than 2 on whose curve the sum is associative, a base point of which no multiple
   below N is infinity, and k < N: ScalarMult meets no exceptional addition, does not panic, and returns
   the base point added to itself k times, (nil, nil) standing for infinity.
   */
  lemma ScalarMultIsTimes(c: BitCurve, a: Affine, k: seq<Byte>)
    requires IsPrime(c.P) && c.P != 2 && SumAssociates(c.B, c.P) && OnCurve(Some(a), c.B, c.P)
    requires BigEndian(k) < c.N && forall i: nat :: 0 < i < c.N ==> Times(Some(a), i, c.P) != None
    ensures var n := BigEndian(k);
            match ProductOf(Plain(a), n, c.P)
            case Panic => false
            case NilPoint => n == 0 && Times(Some(a), n, c.P) == None
            case Point(b) =>
              && n > 0 && NeverExceptional(Plain(a), n, c.P)
              && Times(Some(a), n, c.P) == Some(b) && OnCurve(Some(b), c.B, c.P)
  {
    hide OnCurve, IsHomomorphism, IsGroup, RespectsAffine, Sum, OnJac, NeverExceptional, BigEndian, Multiple;
    if BigEndian(k) > 0 {
      PositiveIsTimes(c, a, k);
    }
  }

  lemma PositiveIsTimes(c: BitCurve, a: Affine, k: seq<Byte>)
    requires IsPrime(c.P) && c.P != 2 && SumAssociates(c.B, c.P) && OnCurve(Some(a), c.B, c.P)
    requires 0 < BigEndian(k) < c.N && forall i: nat :: 0 < i < c.N ==> Times(Some(a), i, c.P) != None
    ensures var n := BigEndian(k);
            var r := ProductOf(Plain(a), n, c.P);
            && NeverExceptional(Plain(a), n, c.P)
            && r.Point? && Some(r.at) == Times(Some(a), n, c.P) && OnCurve(Some(r.at), c.B, c.P)
  {
    hide OnCurve, IsHomomorphism, IsGroup, RespectsAffine, Sum, OnJac, NeverExceptional, BigEndian, Multiple, Times;
    var m, B, n := c.P, c.B, BigEndian(k);
    var phi, g := (p: Jac) => PointOf(p, m), CurveGroup(B, m);
    CurveIsGroup(B, m);
    PointOfIsHomomorphism(B, m);
    PlainPoint(a, B, m);
    forall i: nat | 0 < i < c.N
      ensures Multiple(g, Some(a), i) != g.zero
    {
      MultipleIsTimes(Some(a), i, B, m);
    }
    ScalarMultIsMultiple(phi, g, c, a, k);
    MultipleIsTimes(Some(a), n, B, m);
    var s := ScalarJac(Plain(a), n, m);
    ScalarKeepsCurve(Plain(a), n, B, m);
    Representative(s, B, m);
    PlainPoint(PointOf(s, m).value, B, m);
  }
}
