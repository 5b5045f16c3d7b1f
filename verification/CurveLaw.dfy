/**
 What crypto/curve.go's formulas mean: they stay on the curve for every modulus, they are the
 affine chord and tangent for an odd prime modulus, and they do not depend on which Jacobian
 representative of a point is used.
 */
module CurveLaw {
  import opened Wrappers
  import opened ModArith
  import opened Curve

  function Cube(x: int): int { x * x * x }

  /** y^2 = x^3 + B z^6 modulo m. */
  ghost predicate OnJac(p: Jac, B: int, m: int)
    requires m > 0
  {
    Cong(p.y * p.y, Cube(p.x) + B * (Cube(p.z) * Cube(p.z)), m)
  }

  lemma CongCube(a: int, b: int, m: int)
    requires m > 0 && Cong(a, b, m)
    ensures Cong(Cube(a), Cube(b), m)
  {
    CongMul(a, b, a, b, m);
    CongMul(a * a, b * b, a, b, m);
  }

  // ---------- the curve equation is kept ----------

  /** (x + 2v + t) w^2 - w (3 v^2 + v t - x t) + v^3 = x^3 for w = v - x. */
  lemma ChordCubic(x: int, v: int, t: int)
    ensures var w := v - x;
            (x + t + 2 * v) * (w * w) - w * (3 * (v * v) + v * t - x * t) + Cube(v) == Cube(x)
  {
  }

  /** Twice the cross term, from the two curve equations and their errors. */
  lemma CrossTerm(u: int, h: int, s: int, r: int, c: int)
    ensures var e1 := s * s - Cube(u) - c;
            var e2 := (s + r) * (s + r) - Cube(u + h) - c;
            2 * (r * s) == 3 * ((u * u) * h) + 3 * (u * (h * h)) + h * (h * h) - r * r + (e2 - e1)
  {
  }

  lemma CrossTermScaled(u: int, h: int, r: int, t: int, v: int, e: int)
    requires t == h * (h * h) && v == u * (h * h)
    ensures t * (3 * ((u * u) * h) + 3 * (u * (h * h)) + h * (h * h) - r * r + e)
         == 3 * (v * v) + 3 * (v * t) + t * t - (r * r) * t + t * e
  {
  }

  /** The chord point's error, as a combination of the errors of the two summands. */
  lemma ChordIdentity(u: int, h: int, s: int, r: int, c: int)
    ensures var e1 := s * s - Cube(u) - c;
            var e2 := (s + r) * (s + r) - Cube(u + h) - c;
            var t, x, y := h * (h * h), ChordX(u, h, r), ChordY(u, s, h, r);
            var w := u * (h * h) - x;
            y * y - Cube(x) - c * (t * t) == e1 * (t * t) - w * (t * (e2 - e1))
  {
    hide Cube;
    var e1 := s * s - Cube(u) - c;
    var e2 := (s + r) * (s + r) - Cube(u + h) - c;
    var t, v, x := h * (h * h), u * (h * h), ChordX(u, h, r);
    var w, e, q := v - x, e2 - e1, 3 * ((u * u) * h) + 3 * (u * (h * h)) + h * (h * h) - r * r + (e2 - e1);
    CrossTerm(u, h, s, r, c);
    CrossTermScaled(u, h, r, t, v, e);
    CrossTermCollected(r * r, x, t, v, e, t * q);
    SquareOfDifference(r, w, s, t);
    CubeOfProduct(u, h);
    ErrorSplit(s * s, Cube(u), c, e1, t * t);
    ChordCubic(x, v, t);
    ErrorsLeft((r * r) * (w * w), w, 3 * (v * v) + v * t - x * t, t * e, Cube(v), Cube(x), c * (t * t), e1 * (t * t));
  }

  lemma CrossTermCollected(r2: int, x: int, t: int, v: int, e: int, q: int)
    requires r2 == x + t + 2 * v && q == 3 * (v * v) + 3 * (v * t) + t * t - r2 * t + t * e
    ensures q == 3 * (v * v) + v * t - x * t + t * e
  {
    assert r2 * t == x * t + t * t + 2 * (v * t);
  }

  lemma ErrorSplit(s2: int, u3: int, c: int, e: int, k: int)
    requires s2 == u3 + c + e
    ensures s2 * k == u3 * k + c * k + e * k
  {
  }

  lemma ErrorsLeft(a: int, w: int, n: int, f: int, v3: int, x3: int, c: int, e: int)
    requires a - w * n + v3 == x3
    ensures a - w * (n + f) + (v3 + c + e) - x3 - c == e - w * f
  {
    assert w * (n + f) == w * n + w * f;
  }

  lemma SquareOfDifference(r: int, w: int, s: int, t: int)
    ensures (r * w - s * t) * (r * w - s * t) == (r * r) * (w * w) - w * (t * (2 * (r * s))) + (s * s) * (t * t)
  {
  }

  lemma CubeOfProduct(u: int, h: int)
    ensures Cube(u) * ((h * (h * h)) * (h * (h * h))) == Cube(u * (h * h))
  {
  }

  /** Clearing the denominators of one summand: S^2 = U^3 + B (z z')^6. */
  lemma ClearDenominator(x: int, y: int, z: int, z': int, B: int, m: int)
    requires m > 0 && OnJac(Jac(x, y, z), B, m)
    ensures var u, s := x * (z' * z'), y * z' * (z' * z');
            var d := Cube(z * z');
            Cong(s * s - Cube(u) - B * (d * d), 0, m)
  {
    hide Cube;
    var c, d, g := Cube(z'), Cube(z * z'), Cube(z);
    var u, s := x * (z' * z'), y * z' * (z' * z');
    CubeForms(y, z');
    FourProduct(y, c, y, c);
    CubeOfProduct(x, z');
    CubeTimes(z, z');
    FourProduct(g, c, g, c);
    CommonFactor(y * y, Cube(x), B, g * g, c * c);
    CongIffZero(y * y, Cube(x) + B * (g * g), m);
    CongMul(y * y - (Cube(x) + B * (g * g)), 0, c * c, c * c, m);
  }

  lemma CubeForms(y: int, z: int)
    ensures y * z * (z * z) == y * Cube(z) && z * (z * z) == Cube(z)
  {
  }

  lemma CommonFactor(a: int, b: int, k: int, g: int, c: int)
    ensures a * c - b * c - k * (g * c) == (a - (b + k * g)) * c
  {
  }

  lemma CubeTimes(a: int, b: int)
    ensures Cube(a * b) == Cube(a) * Cube(b)
  {
  }

  /** A point with coordinates 4x, 8y, 2z, reduced, is on the curve when (x, y, z) is. */
  lemma ScaledReducedOnCurve(x: int, y: int, z: int, B: int, m: int)
    requires m > 0 && OnJac(Jac(x, y, z), B, m)
    ensures OnJac(Jac((4 * x) % m, (8 * y) % m, (2 * z) % m), B, m)
  {
    assert Cube(4 * x) == 64 * Cube(x);
    assert Cube(2 * z) == 8 * Cube(z);
    var g := Cube(z);
    assert (8 * g) * (8 * g) == 64 * (g * g);
    assert B * (64 * (g * g)) == 64 * (B * (g * g));
    assert (8 * y) * (8 * y) == 64 * (y * y);
    CongMul(64, 64, y * y, Cube(x) + B * (g * g), m);
    ReducedOnCurve(4 * x, 8 * y, 2 * z, B, m);
  }

  lemma ReducedOnCurve(x: int, y: int, z: int, B: int, m: int)
    requires m > 0 && OnJac(Jac(x, y, z), B, m)
    ensures OnJac(Jac(x % m, y % m, z % m), B, m)
  {
    CongMod(x, m);
    CongMod(y, m);
    CongMod(z, m);
    CongSq(y % m, y, m);
    CongCube(x % m, x, m);
    CongCube(z % m, z, m);
    CongSq(Cube(z % m), Cube(z), m);
    var g, g' := Cube(z % m), Cube(z);
    CongMul(B, B, g * g, g' * g', m);
    CongAdd(Cube(x % m), Cube(x), B * (g * g), B * (g' * g'), m);
  }

  /** The unreduced chord point is on the curve, when both cleared summands satisfy its equation. */
  lemma ChordOnCurve(u: int, s: int, h: int, r: int, z: int, B: int, m: int)
    requires m > 0
    requires var d := Cube(z);
             && Cong(s * s - Cube(u) - B * (d * d), 0, m)
             && Cong((s + r) * (s + r) - Cube(u + h) - B * (d * d), 0, m)
    ensures OnJac(Jac(ChordX(u, h, r), ChordY(u, s, h, r), z * h), B, m)
  {
    var d := Cube(z);
    var c, t := B * (d * d), h * (h * h);
    var e1 := s * s - Cube(u) - c;
    var e2 := (s + r) * (s + r) - Cube(u + h) - c;
    var x, y := ChordX(u, h, r), ChordY(u, s, h, r);
    var w := u * (h * h) - x;
    ChordIdentity(u, h, s, r, c);
    ErrorVanishes(e1, e2, t * t, t, w, m);
    CongIffZero(y * y, Cube(x) + c * (t * t), m);
    ScaledConstant(z, h, B);
  }

  lemma ScaledConstant(z: int, h: int, B: int)
    ensures var d, t := Cube(z), h * (h * h);
            B * (Cube(z * h) * Cube(z * h)) == B * (d * d) * (t * t)
  {
  }

  /** addJacobian keeps the curve equation: every modulus, every pair, h = 0 included. */
  lemma AddKeepsCurve(p: Jac, q: Jac, B: int, m: int)
    requires m > 0 && OnJac(p, B, m) && OnJac(q, B, m)
    ensures OnJac(JacAdd(p, q, m), B, m)
  {
    var u, s, h, r := U1(p, q), S1(p, q), H(p, q), R(p, q);
    var z := p.z * q.z;
    ClearDenominator(p.x, p.y, p.z, q.z, B, m);
    ClearDenominator(q.x, q.y, q.z, p.z, B, m);
    assert q.z * p.z == z;
    assert s + r == S2(p, q) && u + h == U2(p, q);
    ChordOnCurve(u, s, h, r, z, B, m);
    ScaledReducedOnCurve(ChordX(u, h, r), ChordY(u, s, h, r), z * h, B, m);
    assert 2 * (z * h) == 2 * z * h;
  }

  lemma ErrorVanishes(e1: int, e2: int, a: int, t: int, w: int, m: int)
    requires m > 0 && Cong(e1, 0, m) && Cong(e2, 0, m)
    ensures Cong(e1 * a - w * (t * (e2 - e1)), 0, m)
  {
    CongMul(e1, 0, a, a, m);
    CongSub(e2, 0, e1, 0, m);
    CongMul(t, t, e2 - e1, 0, m);
    CongMul(w, w, t * (e2 - e1), 0, m);
    CongSub(e1 * a, 0, w * (t * (e2 - e1)), 0, m);
  }

  lemma TangentIdentity(x: int, y: int)
    ensures var d, k := 4 * (x * (y * y)), y * y;
            TangentY(x, y) * TangentY(x, y) - Cube(TangentX(x, y)) == 64 * Cube(k) * (k - Cube(x))
  {
  }

  lemma TangentConstant(y: int, z: int)
    ensures var k, g, w := y * y, Cube(z), Cube(2 * (y * z));
            w * w == 64 * (Cube(k) * (g * g))
  {
  }

  /** doubleJacobian keeps the curve equation, for every modulus. */
  lemma DoubleKeepsCurve(p: Jac, B: int, m: int)
    requires m > 0 && OnJac(p, B, m)
    ensures OnJac(JacDouble(p, m), B, m)
  {
    var k, g := p.y * p.y, Cube(p.z);
    var x, y, z := TangentX(p.x, p.y), TangentY(p.x, p.y), 2 * (p.y * p.z);
    var c, x3 := B * (g * g), Cube(p.x);
    var e := k - (x3 + c);
    TangentIdentity(p.x, p.y);
    CongIffZero(k, x3 + c, m);
    CongMul(64 * Cube(k), 64 * Cube(k), e, 0, m);
    TangentConstant(p.y, p.z);
    TangentDifference(Cube(k), k, x3, B, g * g);
    CongIffZero(y * y, Cube(x) + B * (Cube(z) * Cube(z)), m);
    ReducedOnCurve(x, y, z, B, m);
  }

  lemma TangentDifference(a: int, k: int, x3: int, B: int, g: int)
    ensures 64 * a * (k - x3) - B * (64 * (a * g)) == 64 * a * (k - (x3 + B * g))
  {
  }

  // ---------- the affine point a Jacobian triple stands for ----------

  /** (x, y, z) stands for (a, b): x = z^2 a and y = z^3 b modulo m. */
  ghost predicate Represents(p: Jac, a: int, b: int, m: int)
    requires m > 0
  {
    Cong(p.x, (p.z * p.z) * a, m) && Cong(p.y, Cube(p.z) * b, m)
  }

  lemma InverseCancels(x: int, c: int, a: int, w: int, m: int)
    requires m > 0 && Cong(x, c * a, m) && Cong(c * w, 1, m)
    ensures Cong(x * w, a, m)
  {
    CongMul(x, c * a, w, w, m);
    CongMul(c * w, 1, a, a, m);
    assert c * a * w == c * w * a;
  }

  lemma InversePowers(z: int, w: int, m: int)
    requires m > 0 && Cong(z * w, 1, m)
    ensures Cong((z * z) * (w * w), 1, m) && Cong(Cube(z) * (w * w * w), 1, m)
  {
    CongSq(z * w, 1, m);
    assert (z * z) * (w * w) == (z * w) * (z * w);
    CongCube(z * w, 1, m);
    CubeTimes(z, w);
  }

  lemma AffineOfRepresented(p: Jac, a: int, b: int, m: int)
    requires m > 0 && Represents(p, a, b, m) && ModInverse(p.z, m).Some?
    ensures AffineOf(p, m) == Some(Affine(a % m, b % m))
  {
    var w := ModInverse(p.z, m).value;
    InversePowers(p.z, w, m);
    InverseCancels(p.x, p.z * p.z, a, w * w, m);
    InverseCancels(p.y, Cube(p.z), b, w * w * w, m);
  }

  /** affineFromJacobian is right whenever it returns: the triple stands for its result. */
  lemma AffineRepresents(p: Jac, m: int)
    requires m > 0 && AffineOf(p, m).Some?
    ensures var a := AffineOf(p, m).value;
            0 <= a.x < m && 0 <= a.y < m && Represents(p, a.x, a.y, m)
  {
    var w, a := ModInverse(p.z, m).value, AffineOf(p, m).value;
    InversePowers(p.z, w, m);
    CongMod(p.x * (w * w), m);
    CongMod(p.y * (w * w * w), m);
    UndoInverse(p.x, p.z * p.z, w * w, a.x, m);
    UndoInverse(p.y, Cube(p.z), w * w * w, a.y, m);
  }

  lemma UndoInverse(x: int, c: int, w: int, a: int, m: int)
    requires m > 0 && Cong(c * w, 1, m) && Cong(a, x * w, m)
    ensures Cong(x, c * a, m)
  {
    CongMul(c, c, a, x * w, m);
    assert c * (x * w) == c * w * x;
    CongMul(c * w, 1, x, x, m);
  }

  /** l is the slope of the line through a and b. */
  ghost predicate ChordSlope(l: int, a: Affine, b: Affine, m: int)
    requires m > 0
  {
    Cong(l * (b.x - a.x), b.y - a.y, m)
  }

  /** l is the slope of the tangent at a. */
  ghost predicate TangentSlope(l: int, a: Affine, m: int)
    requires m > 0
  {
    Cong(l * (2 * a.y), 3 * (a.x * a.x), m)
  }

  // ---------- chord and tangent (section 2.2.1 of SEC 1) ----------

  /** c is where the line of slope l through a meets the curve again, mirrored. */
  ghost predicate ThirdPoint(l: int, ax: int, ay: int, bx: int, c: Affine, m: int)
    requires m > 0
  {
    && 0 <= c.x < m && Cong(c.x, l * l - ax - bx, m)
    && 0 <= c.y < m && Cong(c.y, l * (ax - c.x) - ay, m)
  }

  lemma ThirdPointOf(l: int, ax: int, ay: int, bx: int, m: int)
    requires m > 0
    ensures var x := l * l - ax - bx;
            ThirdPoint(l, ax, ay, bx, Affine(x % m, (l * (ax - x) - ay) % m), m)
  {
    var x := l * l - ax - bx;
    var y := l * (ax - x) - ay;
    CongMod(x, m);
    CongMod(y, m);
    CongSub(ax, ax, x % m, x, m);
    CongMul(l, l, ax - x % m, ax - x, m);
    CongSub(l * (ax - x % m), l * (ax - x), ay, ay, m);
  }

  /** Slopes exist modulo a prime when the run is not zero. */
  lemma SlopeExists(run: int, rise: int, m: int) returns (l: int)
    requires IsPrime(m) && !Cong(run, 0, m)
    ensures Cong(l * run, rise, m)
  {
    PrimeInvertible(run, m);
    var w := ModInverse(run, m).value;
    l := w * rise;
    CongMul(run * w, 1, rise, rise, m);
    assert w * rise * run == run * w * rise;
  }

  lemma ChordRepresented(x1: int, y1: int, h: int, r: int, l: int, m: int)
    requires m > 0 && Cong(l * h, r, m)
    ensures var a := l * l - x1 - (x1 + h);
            Represents(Jac(4 * ChordX(x1, h, r), 8 * ChordY(x1, y1, h, r), 2 * h), a, l * (x1 - a) - y1, m)
  {
    var k, g := h * h, l * h;
    var a := l * l - x1 - (x1 + h);
    ChordCong(x1, y1, h, r, x1, y1, h, g, m);
    CongMul(4, 4, ChordX(x1, h, r), ChordX(x1, h, g), m);
    CongMul(8, 8, ChordY(x1, y1, h, r), ChordY(x1, y1, h, g), m);
    ChordOnSlope(x1, y1, h, l);
    TwiceCubed(h);
    assert 4 * k * a == 4 * (k * a);
    var b := l * (x1 - a) - y1;
    assert 8 * (h * k) * b == 8 * ((h * k) * b);
  }

  lemma TwiceCubed(h: int)
    ensures (2 * h) * (2 * h) == 4 * (h * h) && Cube(2 * h) == 8 * (h * (h * h))
  {
  }

  /** The chord formulas with the rise written as slope times run. */
  lemma ChordOnSlope(x1: int, y1: int, h: int, l: int)
    ensures var k, g, a := h * h, l * h, l * l - x1 - (x1 + h);
            ChordX(x1, h, g) == k * a && ChordY(x1, y1, h, g) == (h * k) * (l * (x1 - a) - y1)
  {
    var k, g, a := h * h, l * h, l * l - x1 - (x1 + h);
    FourProduct(l, h, l, h);
    AbscissaFactor(k, l * l, x1, h);
    OrdinateFactor(x1, y1, h, k, l, a);
  }

  lemma AbscissaFactor(k: int, l2: int, x1: int, h: int)
    ensures l2 * k - h * k - 2 * (x1 * k) == k * (l2 - x1 - (x1 + h))
  {
  }

  lemma OrdinateFactor(x1: int, y1: int, h: int, k: int, l: int, a: int)
    ensures (l * h) * (x1 * k - k * a) - y1 * (h * k) == (h * k) * (l * (x1 - a) - y1)
  {
    var d := x1 - a;
    assert x1 * k - k * a == d * k;
    FourProduct(l, h, d, k);
    assert (h * k) * (l * d - y1) == (h * k) * (l * d) - (h * k) * y1;
    assert (l * d) * (h * k) == (h * k) * (l * d) && y1 * (h * k) == (h * k) * y1;
  }

  /** Two points with z = 1, before reduction. */
  lemma AddAtOne(a: Affine, b: Affine, m: int)
    requires m > 0
    ensures var p, q := Jac(a.x, a.y, 1), Jac(b.x, b.y, 1);
            && U1(p, q) == a.x && S1(p, q) == a.y && H(p, q) == b.x - a.x && R(p, q) == b.y - a.y
            && JacAdd(p, q, m) == Jac((4 * ChordX(a.x, b.x - a.x, b.y - a.y)) % m,
                                      (8 * ChordY(a.x, a.y, b.x - a.x, b.y - a.y)) % m,
                                      (2 * (b.x - a.x)) % m)
  {
  }

  lemma ReducedRepresents(x: int, y: int, z: int, a: int, b: int, m: int)
    requires m > 0 && Represents(Jac(x, y, z), a, b, m)
    ensures Represents(Jac(x % m, y % m, z % m), a, b, m)
  {
    CongMod(x, m);
    CongMod(y, m);
    CongMod(z, m);
    CongSq(z % m, z, m);
    CongCube(z % m, z, m);
    CongMul((z % m) * (z % m), z * z, a, a, m);
    CongMul(Cube(z % m), Cube(z), b, b, m);
  }

  /**
   Add, for a prime modulus: it returns exactly when the modulus is odd and the abscissae
   differ, and then returns the third point of the chord, whichever slope one computes with.
   */
  lemma AddIsChord(a: Affine, b: Affine, m: int)
    requires IsPrime(m)
    ensures var c := AffineOf(JacAdd(Jac(a.x, a.y, 1), Jac(b.x, b.y, 1), m), m);
            && (c.Some? <==> m != 2 && !Cong(a.x, b.x, m))
            && (c.Some? ==> exists l :: ChordSlope(l, a, b, m))
            && (c.Some? ==> forall l :: ChordSlope(l, a, b, m) ==> ThirdPoint(l, a.x, a.y, b.x, c.value, m))
  {
    var h, r := b.x - a.x, b.y - a.y;
    AddAtOne(a, b, m);
    var j := JacAdd(Jac(a.x, a.y, 1), Jac(b.x, b.y, 1), m);
    CongMod(2 * h, m);
    PrimeInvertible(j.z, m);
    TwiceVanishes(h, m);
    CongIffZero(b.x, a.x, m);
    var c := AffineOf(j, m);
    assert c.Some? <==> m != 2 && !Cong(a.x, b.x, m);
    if c.Some? {
      var l0 := SlopeExists(h, r, m);
      assert ChordSlope(l0, a, b, m);
      forall l | ChordSlope(l, a, b, m)
        ensures ThirdPoint(l, a.x, a.y, b.x, c.value, m)
      {
        ChordRepresented(a.x, a.y, h, r, l, m);
        var x := l * l - a.x - b.x;
        assert x == l * l - a.x - (a.x + h);
        ReducedRepresents(4 * ChordX(a.x, h, r), 8 * ChordY(a.x, a.y, h, r), 2 * h, x, l * (a.x - x) - a.y, m);
        AffineOfRepresented(j, x, l * (a.x - x) - a.y, m);
        ThirdPointOf(l, a.x, a.y, b.x, m);
      }
    }
  }

  /** 2 h vanishes modulo a prime only when h does, or the prime is 2. */
  lemma TwiceVanishes(h: int, m: int)
    requires IsPrime(m)
    ensures Cong(2 * h, 0, m) <==> m == 2 || Cong(h, 0, m)
  {
    if m != 2 && !Cong(h, 0, m) {
      PrimeProduct(2, h, m);
    }
    if Cong(h, 0, m) {
      CongMul(2, 2, h, 0, m);
    }
  }

  lemma TangentAbscissa(x: int, y: int, l: int)
    ensures var g, k := l * (2 * y), y * y;
            g * g - 2 * (4 * (x * k)) == (2 * y) * (2 * y) * (l * l - x - x)
  {
  }

  lemma TangentOrdinate(y: int, l: int, d: int)
    ensures var g, k := l * (2 * y), y * y;
            g * (4 * k * d) - 8 * (k * k) == Cube(2 * y) * (l * d - y)
  {
  }

  lemma TangentRepresented(x: int, y: int, l: int, m: int)
    requires m > 0 && TangentSlope(l, Affine(x, y), m)
    ensures var a := l * l - x - x;
            Represents(Jac(TangentX(x, y), TangentY(x, y), 2 * y), a, l * (x - a) - y, m)
  {
    var k, g, e := y * y, l * (2 * y), 3 * (x * x);
    var a, c := l * l - x - x, 4 * (x * k);
    TangentAbscissa(x, y, l);
    CongSq(g, e, m);
    CongSub(g * g, e * e, 2 * c, 2 * c, m);
    var d := x - a;
    var t := (2 * y) * (2 * y) * a;
    CongSub(c, c, TangentX(x, y), t, m);
    assert (2 * y) * (2 * y) == 4 * k;
    assert 4 * k * x == c && 4 * k * x - 4 * k * a == 4 * k * d;
    CongMul(e, g, c - TangentX(x, y), 4 * k * d, m);
    CongSub(e * (c - TangentX(x, y)), g * (4 * k * d), 8 * (k * k), 8 * (k * k), m);
    TangentOrdinate(y, l, d);
  }

  /** Double, for a prime modulus: it returns exactly when 2y is not zero, and then the tangent's third point. */
  lemma DoubleIsTangent(a: Affine, m: int)
    requires IsPrime(m)
    ensures var c := AffineOf(JacDouble(Jac(a.x, a.y, 1), m), m);
            && (c.Some? <==> m != 2 && !Cong(a.y, 0, m))
            && (c.Some? ==> exists l :: TangentSlope(l, a, m))
            && (c.Some? ==> forall l :: TangentSlope(l, a, m)
                                        ==> ThirdPoint(l, a.x, a.y, a.x, c.value, m))
  {
    var j := JacDouble(Jac(a.x, a.y, 1), m);
    assert a.y * 1 == a.y;
    CongMod(2 * a.y, m);
    PrimeInvertible(j.z, m);
    TwiceVanishes(a.y, m);
    var c := AffineOf(j, m);
    if c.Some? {
      var l0 := SlopeExists(2 * a.y, 3 * (a.x * a.x), m);
      assert TangentSlope(l0, a, m);
      forall l | TangentSlope(l, a, m)
        ensures ThirdPoint(l, a.x, a.y, a.x, c.value, m)
      {
        TangentRepresented(a.x, a.y, l, m);
        var x := l * l - a.x - a.x;
        ReducedRepresents(TangentX(a.x, a.y), TangentY(a.x, a.y), 2 * a.y, x, l * (a.x - x) - a.y, m);
        AffineOfRepresented(j, x, l * (a.x - x) - a.y, m);
        ThirdPointOf(l, a.x, a.y, a.x, m);
      }
    }
  }

  // ---------- independence of the representative ----------

  /** p is q with its coordinates scaled by k^2, k^3 and k. */
  ghost predicate ScaledBy(p: Jac, q: Jac, k: int, m: int)
    requires m > 0
  {
    && Cong(p.x, (k * k) * q.x, m) && Cong(p.y, Cube(k) * q.y, m) && Cong(p.z, k * q.z, m)
  }

  lemma InvertibleProduct(a: int, b: int, m: int)
    requires m > 0
    ensures ModInverse(a * b, m).Some? <==> ModInverse(a, m).Some? && ModInverse(b, m).Some?
  {
    if ModInverse(a * b, m).Some? {
      FactorInvertible(a, b, m);
      assert a * b == b * a;
      FactorInvertible(b, a, m);
    }
    if ModInverse(a, m).Some? && ModInverse(b, m).Some? {
      var v, w := ModInverse(a, m).value, ModInverse(b, m).value;
      CongMul(a * v, 1, b * w, 1, m);
      FourProduct(a, v, b, w);
      InverseExists(a * b, v * w, m);
    }
  }

  lemma FactorInvertible(a: int, b: int, m: int)
    requires m > 0 && ModInverse(a * b, m).Some?
    ensures ModInverse(a, m).Some?
  {
    var w := ModInverse(a * b, m).value;
    assert a * (b * w) == a * b * w;
    InverseExists(a, b * w, m);
  }

  /** Scaling by an invertible factor does not change the affine point. */
  lemma AffineOfScaled(p: Jac, q: Jac, k: int, m: int)
    requires m > 0 && ScaledBy(p, q, k, m) && ModInverse(k, m).Some?
    ensures AffineOf(p, m) == AffineOf(q, m)
  {
    SameInvertibility(p.z, q.z, k, m);
    if AffineOf(q, m).Some? {
      var a := AffineOf(q, m).value;
      AffineRepresents(q, m);
      RepresentsScaled(p, q, k, a.x, a.y, m);
      AffineOfRepresented(p, a.x, a.y, m);
      assert a.x % m == a.x && a.y % m == a.y by {
        DivModUnique(a.x, 0, a.x, m);
        DivModUnique(a.y, 0, a.y, m);
      }
    }
  }

  lemma SameInvertibility(z': int, z: int, k: int, m: int)
    requires m > 0 && Cong(z', k * z, m) && ModInverse(k, m).Some?
    ensures ModInverse(z', m).Some? <==> ModInverse(z, m).Some?
  {
    ModInverseCong(z', k * z, m);
    InvertibleProduct(k, z, m);
  }

  lemma RepresentsScaled(p: Jac, q: Jac, k: int, a: int, b: int, m: int)
    requires m > 0 && ScaledBy(p, q, k, m) && Represents(q, a, b, m)
    ensures Represents(p, a, b, m)
  {
    var z, w := k * q.z, q.z * q.z;
    assert z * z == (k * k) * w;
    CongSq(p.z, z, m);
    ScaledFactor(p.x, q.x, k * k, w, p.z * p.z, a, m);
    CubeTimes(k, q.z);
    CongCube(p.z, z, m);
    ScaledFactor(p.y, q.y, Cube(k), Cube(q.z), Cube(p.z), b, m);
  }

  lemma ScaledFactor(x': int, x: int, c: int, w: int, w': int, a: int, m: int)
    requires m > 0 && Cong(x', c * x, m) && Cong(x, w * a, m) && Cong(w', c * w, m)
    ensures Cong(x', w' * a, m)
  {
    CongMul(c, c, x, w * a, m);
    CongMul(w', c * w, a, a, m);
    assert c * (w * a) == c * w * a;
  }

  lemma ChordXScaled(u: int, h: int, r: int, k: int)
    ensures var k2, n := k * k, Cube(k);
            && (k2 * h) * ((k2 * h) * (k2 * h)) == (n * n) * (h * (h * h))
            && (k2 * u) * ((k2 * h) * (k2 * h)) == (n * n) * (u * (h * h))
            && ChordX(k2 * u, k2 * h, n * r) == (n * n) * ChordX(u, h, r)
  {
    var k2, n, g := k * k, Cube(k), h * h;
    var k4, n2 := k2 * k2, n * n;
    assert k2 * k4 == n2;
    assert (k2 * h) * (k2 * h) == k4 * g;
    assert (k2 * h) * (k4 * g) == (k2 * k4) * (h * g);
    assert (k2 * u) * (k4 * g) == (k2 * k4) * (u * g);
    assert (n * r) * (n * r) == n2 * (r * r);
    var a, b, c := r * r, h * g, u * g;
    assert n2 * a - n2 * b - 2 * (n2 * c) == n2 * (a - b - 2 * c);
  }

  lemma ChordScaled(u: int, s: int, h: int, r: int, k: int)
    ensures var k2, n := k * k, Cube(k);
            && ChordX(k2 * u, k2 * h, n * r) == (n * n) * ChordX(u, h, r)
            && ChordY(k2 * u, n * s, k2 * h, n * r) == Cube(n) * ChordY(u, s, h, r)
  {
    var n, t, v, x := Cube(k), h * (h * h), u * (h * h), ChordX(u, h, r);
    var n2 := n * n;
    ChordXScaled(u, h, r, k);
    OrdinateScaled(r, v, x, s, t, n);
  }

  lemma OrdinateScaled(r: int, v: int, x: int, s: int, t: int, n: int)
    ensures var n2 := n * n;
            (n * r) * (n2 * v - n2 * x) - (n * s) * (n2 * t) == Cube(n) * (r * (v - x) - s * t)
  {
  }

  /** The unreduced stages of a sum of scaled points, with k the product of the two factors. */
  lemma StagesScaled(x1: int, y1: int, z2: int, k1: int, k2: int)
    ensures var k := k1 * k2;
            && ((k1 * k1) * x1) * ((k2 * z2) * (k2 * z2)) == (k * k) * (x1 * (z2 * z2))
            && (Cube(k1) * y1) * (k2 * z2) * ((k2 * z2) * (k2 * z2)) == Cube(k) * (y1 * z2 * (z2 * z2))
  {
    var k, w, a, b := k1 * k2, z2 * z2, k1 * k1, k2 * k2;
    assert (k2 * z2) * (k2 * z2) == b * w;
    assert k * k == a * b;
    FourProduct(a, x1, b, w);
    CubeTimes(k1, k2);
    var c, d := Cube(k1), Cube(k2);
    FourProduct(c, y1, k2, z2);
    FourProduct(c * k2, y1 * z2, b, w);
    assert (c * k2) * b == c * d;
  }

  lemma FourProduct(a: int, x: int, b: int, w: int)
    ensures (a * x) * (b * w) == (a * b) * (x * w)
  {
  }

  lemma StageCong(x: int, z: int, x': int, z': int, y: int, y': int, m: int)
    requires m > 0 && Cong(x, x', m) && Cong(y, y', m) && Cong(z, z', m)
    ensures Cong(x * (z * z), x' * (z' * z'), m)
    ensures Cong(y * z * (z * z), y' * z' * (z' * z'), m)
  {
    CongSq(z, z', m);
    CongMul(x, x', z * z, z' * z', m);
    CongMul(y, y', z, z', m);
    CongMul(y * z, y' * z', z * z, z' * z', m);
  }

  /** The sum of scaled points is the sum, scaled by the cube of the product of the factors. */
  lemma AddScaled(p': Jac, p: Jac, k1: int, q': Jac, q: Jac, k2: int, m: int)
    requires m > 0 && ScaledBy(p', p, k1, m) && ScaledBy(q', q, k2, m)
    ensures ScaledBy(JacAdd(p', q', m), JacAdd(p, q, m), Cube(k1 * k2), m)
  {
    var k := k1 * k2;
    var h := H(p, q);
    StagesCong(p', p, k1, q', q, k2, m);
    ScaledSum(p', q', U1(p, q), S1(p, q), h, R(p, q), k, m);
    CongMul(p'.z, k1 * p.z, q'.z, k2 * q.z, m);
    FourProduct(k1, p.z, k2, q.z);
    ScaledZ(p'.z * q'.z, H(p', q'), p.z * q.z, h, k, m);
  }

  lemma StagesCong(p': Jac, p: Jac, k1: int, q': Jac, q: Jac, k2: int, m: int)
    requires m > 0 && ScaledBy(p', p, k1, m) && ScaledBy(q', q, k2, m)
    ensures var k := k1 * k2;
            && Cong(U1(p', q'), (k * k) * U1(p, q), m) && Cong(S1(p', q'), Cube(k) * S1(p, q), m)
            && Cong(H(p', q'), (k * k) * H(p, q), m) && Cong(R(p', q'), Cube(k) * R(p, q), m)
  {
    var k := k1 * k2;
    StageCong(p'.x, q'.z, (k1 * k1) * p.x, k2 * q.z, p'.y, Cube(k1) * p.y, m);
    StagesScaled(p.x, p.y, q.z, k1, k2);
    StageCong(q'.x, p'.z, (k2 * k2) * q.x, k1 * p.z, q'.y, Cube(k2) * q.y, m);
    StagesScaled(q.x, q.y, p.z, k2, k1);
    assert k2 * k1 == k;
    CongScaledDifference(U2(p', q'), U1(p', q'), U2(p, q), U1(p, q), k * k, m);
    CongScaledDifference(S2(p', q'), S1(p', q'), S2(p, q), S1(p, q), Cube(k), m);
  }

  lemma CongScaledDifference(a': int, b': int, a: int, b: int, n: int, m: int)
    requires m > 0 && Cong(a', n * a, m) && Cong(b', n * b, m)
    ensures Cong(a' - b', n * (a - b), m)
  {
    CongSub(a', n * a, b', n * b, m);
    assert n * a - n * b == n * (a - b);
  }

  lemma ScaledSum(p': Jac, q': Jac, u: int, s: int, h: int, r: int, k: int, m: int)
    requires m > 0
    requires Cong(U1(p', q'), (k * k) * u, m) && Cong(S1(p', q'), Cube(k) * s, m)
    requires Cong(H(p', q'), (k * k) * h, m) && Cong(R(p', q'), Cube(k) * r, m)
    ensures var n, j := Cube(k), JacAdd(p', q', m);
            && Cong(j.x, (n * n) * ((4 * ChordX(u, h, r)) % m), m)
            && Cong(j.y, Cube(n) * ((8 * ChordY(u, s, h, r)) % m), m)
  {
    var kk, n := k * k, Cube(k);
    var x', y', x, y := ChordX(U1(p', q'), H(p', q'), R(p', q')),
      ChordY(U1(p', q'), S1(p', q'), H(p', q'), R(p', q')), ChordX(u, h, r), ChordY(u, s, h, r);
    ChordCong(U1(p', q'), S1(p', q'), H(p', q'), R(p', q'), kk * u, n * s, kk * h, n * r, m);
    ChordScaled(u, s, h, r, k);
    ScaledMultiple(4, x', n * n, x, m);
    ScaledMultiple(8, y', Cube(n), y, m);
  }

  lemma ScaledMultiple(c: int, x': int, n: int, x: int, m: int)
    requires m > 0 && Cong(x', n * x, m)
    ensures Cong((c * x') % m, n * ((c * x) % m), m)
  {
    CongMul(c, c, x', n * x, m);
    CongMod(c * x', m);
    CongMod(c * x, m);
    CongMul(n, n, (c * x) % m, c * x, m);
    assert n * (c * x) == c * (n * x);
  }

  lemma ScaledZ(z': int, h': int, z: int, h: int, k: int, m: int)
    requires m > 0 && Cong(z', k * z, m) && Cong(h', (k * k) * h, m)
    ensures Cong((2 * z' * h') % m, Cube(k) * ((2 * z * h) % m), m)
  {
    CongMul(z', k * z, h', (k * k) * h, m);
    assert (k * z) * ((k * k) * h) == Cube(k) * (z * h);
    ScaledMultiple(2, z' * h', Cube(k), z * h, m);
    assert 2 * z' * h' == 2 * (z' * h') && 2 * z * h == 2 * (z * h);
  }

  lemma TangentCong(x: int, y: int, x': int, y': int, m: int)
    requires m > 0 && Cong(x, x', m) && Cong(y, y', m)
    ensures Cong(TangentX(x, y), TangentX(x', y'), m) && Cong(TangentY(x, y), TangentY(x', y'), m)
  {
    CongSq(x, x', m);
    CongSq(y, y', m);
    CongMul(3, 3, x * x, x' * x', m);
    var e, e', b, b' := 3 * (x * x), 3 * (x' * x'), y * y, y' * y';
    CongSq(e, e', m);
    CongMul(x, x', b, b', m);
    CongMul(4, 4, x * b, x' * b', m);
    CongMul(2, 2, 4 * (x * b), 4 * (x' * b'), m);
    CongSub(e * e, e' * e', 2 * (4 * (x * b)), 2 * (4 * (x' * b')), m);
    CongSub(4 * (x * b), 4 * (x' * b'), TangentX(x, y), TangentX(x', y'), m);
    CongMul(e, e', 4 * (x * b) - TangentX(x, y), 4 * (x' * b') - TangentX(x', y'), m);
    CongSq(b, b', m);
    CongMul(8, 8, b * b, b' * b', m);
    CongSub(e * (4 * (x * b) - TangentX(x, y)), e' * (4 * (x' * b') - TangentX(x', y')), 8 * (b * b), 8 * (b' * b'), m);
  }

  lemma TangentXScaled(x: int, y: int, k: int)
    ensures var k2, n := k * k, k * k * (k * k);
            && (k2 * x) * (k2 * x) == n * (x * x)
            && (Cube(k) * y) * (Cube(k) * y) == (k2 * n) * (y * y)
            && 4 * ((k2 * x) * ((k2 * n) * (y * y))) == (n * n) * (4 * (x * (y * y)))
            && TangentX(k2 * x, Cube(k) * y) == (n * n) * TangentX(x, y)
  {
  }

  lemma TangentScaled(x: int, y: int, k: int)
    ensures var k2, n := k * k, k * k * (k * k);
            && TangentX(k2 * x, Cube(k) * y) == (n * n) * TangentX(x, y)
            && TangentY(k2 * x, Cube(k) * y) == Cube(n) * TangentY(x, y)
  {
    var k2, n, a, b := k * k, k * k * (k * k), x * x, y * y;
    TangentXScaled(x, y, k);
    FourProduct(k2 * n, b, k2 * n, b);
    assert (k2 * n) * (k2 * n) == Cube(n);
    assert 3 * (n * a) == n * (3 * a);
    OrdinateScaled(3 * a, 4 * (x * b), TangentX(x, y), 8, b * b, n);
    var n2 := n * n;
    assert (n * 8) * (n2 * (b * b)) == 8 * (Cube(n) * (b * b)) by {
      var t := b * b;
      assert (n * 8) * (n2 * t) == 8 * ((n * n2) * t);
    }
  }

  /** The double of a scaled point is the double, scaled by the fourth power of the factor. */
  lemma DoubleScaled(p': Jac, p: Jac, k: int, m: int)
    requires m > 0 && ScaledBy(p', p, k, m)
    ensures ScaledBy(JacDouble(p', m), JacDouble(p, m), k * k * (k * k), m)
  {
    var n := k * k * (k * k);
    var x', y', x, y := TangentX(p'.x, p'.y), TangentY(p'.x, p'.y), TangentX(p.x, p.y), TangentY(p.x, p.y);
    TangentCong(p'.x, p'.y, (k * k) * p.x, Cube(k) * p.y, m);
    TangentScaled(p.x, p.y, k);
    ScaledMultiple(1, x', n * n, x, m);
    ScaledMultiple(1, y', Cube(n), y, m);
    CongMul(p'.y, Cube(k) * p.y, p'.z, k * p.z, m);
    FourProduct(Cube(k), p.y, k, p.z);
    assert Cube(k) * k == n;
    ScaledMultiple(2, p'.y * p'.z, n, p.y * p.z, m);
  }

  /**
   Rescaling the inputs by invertible factors changes neither the affine sum nor the affine
   double, for every modulus; for a prime modulus invertible means not congruent to zero.
   */
  lemma AffineIndependentOfScale(p': Jac, p: Jac, k1: int, q': Jac, q: Jac, k2: int, m: int)
    requires m > 0 && ScaledBy(p', p, k1, m) && ScaledBy(q', q, k2, m)
    requires ModInverse(k1, m).Some? && ModInverse(k2, m).Some?
    ensures AffineOf(JacAdd(p', q', m), m) == AffineOf(JacAdd(p, q, m), m)
    ensures AffineOf(JacDouble(p', m), m) == AffineOf(JacDouble(p, m), m)
  {
    var k := k1 * k2;
    InvertibleProduct(k1, k2, m);
    InvertibleProduct(k, k, m);
    InvertibleProduct(k * k, k, m);
    AddScaled(p', p, k1, q', q, k2, m);
    AffineOfScaled(JacAdd(p', q', m), JacAdd(p, q, m), Cube(k), m);
    InvertibleProduct(k1, k1, m);
    InvertibleProduct(k1 * k1, k1 * k1, m);
    DoubleScaled(p', p, k1, m);
    AffineOfScaled(JacDouble(p', m), JacDouble(p, m), k1 * k1 * (k1 * k1), m);
  }
}
