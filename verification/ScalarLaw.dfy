/**
 ScalarMult as multiplication in a group: under a homomorphism that holds away from the
 exceptional cases of addJacobian, those cases are never met below the order of the base point.
 */
module ScalarLaw {
  import opened Bytes
  import opened ModArith
  import opened Curve
  import opened CurveLaw

  /** The values of G that has accepts, with an operation on them. */
  datatype Group<!G> = Group(zero: G, op: (G, G) -> G, neg: G -> G, has: G -> bool)

  ghost predicate IsGroup<G(!new)>(g: Group<G>) {
    && g.has(g.zero)
    && (forall a, b :: g.has(a) && g.has(b) ==> g.has(g.op(a, b)))
    && (forall a :: g.has(a) ==> g.has(g.neg(a)))
    && (forall a, b, c :: g.has(a) && g.has(b) && g.has(c) ==> Associates(g, a, b, c))
    && (forall a :: g.has(a) ==> g.op(g.zero, a) == a && g.op(a, g.zero) == a)
    && (forall a :: g.has(a) ==> g.op(g.neg(a), a) == g.zero)
  }

  ghost predicate Associates<G>(g: Group<G>, a: G, b: G, c: G) {
    g.op(g.op(a, b), c) == g.op(a, g.op(b, c))
  }

  /** The laws at given elements. */
  lemma Laws<G(!new)>(g: Group<G>, a: G, b: G, c: G)
    requires IsGroup(g) && g.has(a) && g.has(b) && g.has(c)
    ensures Associates(g, a, b, c) && g.has(g.op(a, b)) && g.has(g.neg(a)) && g.has(g.zero)
    ensures g.op(g.zero, a) == a && g.op(a, g.zero) == a && g.op(g.neg(a), a) == g.zero
  {
  }

  /** a + a + ... + a, n times. */
  ghost function Multiple<G>(g: Group<G>, a: G, n: nat): G {
    if n == 0 then g.zero else g.op(a, Multiple(g, a, n - 1))
  }

  lemma {:induction false} MultipleIsIn<G(!new)>(g: Group<G>, a: G, n: nat)
    requires IsGroup(g) && g.has(a)
    ensures g.has(Multiple(g, a, n))
  {
    hide IsGroup;
    Laws(g, a, a, a);
    if n > 0 {
      MultipleIsIn(g, a, n - 1);
      Laws(g, a, Multiple(g, a, n - 1), a);
    }
  }

  lemma {:induction false} MultipleSum<G(!new)>(g: Group<G>, a: G, i: nat, j: nat)
    requires IsGroup(g) && g.has(a)
    ensures g.op(Multiple(g, a, i), Multiple(g, a, j)) == Multiple(g, a, i + j)
  {
    hide IsGroup;
    MultipleIsIn(g, a, j);
    if i > 0 {
      MultipleIsIn(g, a, i - 1);
      MultipleSum(g, a, i - 1, j);
      Laws(g, a, Multiple(g, a, i - 1), Multiple(g, a, j));
    } else {
      Laws(g, Multiple(g, a, j), a, a);
    }
  }

  lemma Cancel<G(!new)>(g: Group<G>, a: G, b: G, c: G)
    requires IsGroup(g) && g.has(a) && g.has(b) && g.has(c) && g.op(a, b) == g.op(a, c)
    ensures b == c
  {
    hide IsGroup;
    Laws(g, a, b, c);
    Laws(g, g.neg(a), a, b);
    Laws(g, g.neg(a), a, c);
    Laws(g, b, a, a);
    Laws(g, c, a, a);
  }

  /** The multiples of a below n are not zero. */
  ghost predicate OrderAtLeast<G>(g: Group<G>, a: G, n: nat) {
    forall i: nat :: 0 < i < n ==> Multiple(g, a, i) != g.zero
  }

  /** Where the chord formula does not give the sum: infinity, equal or opposite summands. */
  ghost predicate Exceptional(p: Jac, q: Jac, m: int)
    requires m > 0
  {
    Cong(p.z, 0, m) || Cong(q.z, 0, m) || Cong(H(p, q), 0, m)
  }

  /** The addition and doubling rules of a homomorphism, at one pair of curve points. */
  ghost predicate RespectsFormulas<G>(phi: Jac -> G, g: Group<G>, p: Jac, q: Jac, m: int)
    requires m > 0
  {
    && phi(JacDouble(p, m)) == g.op(phi(p), phi(p))
    && if Exceptional(p, q, m)
       then phi(p) == g.zero || phi(q) == g.zero || phi(p) == phi(q) || phi(p) == g.neg(phi(q))
       else phi(JacAdd(p, q, m)) == g.op(phi(p), phi(q))
  }

  /** Infinity is zero, and the affine form of a point has the point's image. */
  ghost predicate RespectsAffine<G>(phi: Jac -> G, g: Group<G>, p: Jac, m: int)
    requires m > 0
  {
    && (Cong(p.z, 0, m) ==> phi(p) == g.zero)
    && match AffineOf(p, m)
       case None => true
       case Some(a) => phi(Jac(a.x, a.y, 1)) == phi(p)
  }

  /** phi maps the points of the curve to a group, and the formulas to its operation. */
  ghost predicate IsHomomorphism<G(!new)>(phi: Jac -> G, g: Group<G>, B: int, m: int)
    requires m > 0
  {
    && (forall p, q :: OnJac(p, B, m) && OnJac(q, B, m) ==> RespectsFormulas(phi, g, p, q, m))
    && (forall p :: OnJac(p, B, m) ==> g.has(phi(p)) && RespectsAffine(phi, g, p, m))
  }

  /** Computing n times b, no call of addJacobian is exceptional. */
  ghost predicate NeverExceptional(b: Jac, n: nat, m: int)
    requires m > 0 && n > 0
  {
    n == 1 ||
    (NeverExceptional(b, n / 2, m)
     && (n % 2 == 1 ==> !Exceptional(b, JacDouble(ScalarJac(b, n / 2, m), m), m)))
  }

  lemma {:induction false} ScalarKeepsCurve(b: Jac, n: nat, B: int, m: int)
    requires m > 0 && n > 0 && OnJac(b, B, m)
    ensures OnJac(ScalarJac(b, n, m), B, m)
  {
    if n > 1 {
      ScalarKeepsCurve(b, n / 2, B, m);
      var s := ScalarJac(b, n / 2, m);
      DoubleKeepsCurve(s, B, m);
      AddKeepsCurve(b, JacDouble(s, m), B, m);
    }
  }

  /** b and an even multiple of it below the order are neither equal, opposite nor zero. */
  lemma EvenMultipleApart<G(!new)>(g: Group<G>, a: G, n: nat, order: nat)
    requires IsGroup(g) && g.has(a) && OrderAtLeast(g, a, order)
    requires 2 <= n && n + 1 < order
    ensures var c := Multiple(g, a, n);
            a != g.zero && c != g.zero && a != c && a != g.neg(c)
  {
    hide IsGroup;
    var c := Multiple(g, a, n);
    MultipleIsIn(g, a, n);
    MultipleIsIn(g, a, n - 1);
    Laws(g, a, c, a);
    Laws(g, c, a, a);
    assert Multiple(g, a, 1) == g.op(a, Multiple(g, a, 0)) == a;
    assert Multiple(g, a, n + 1) == g.op(a, c);
    if a == c {
      Cancel(g, a, Multiple(g, a, n - 1), g.zero);
    }
  }

  lemma {:induction false} ScalarIsMultiple<G(!new)>(
      phi: Jac -> G, g: Group<G>, b: Jac, n: nat, order: nat, B: int, m: int)
    requires m > 0 && OnJac(b, B, m) && IsGroup(g) && IsHomomorphism(phi, g, B, m)
    requires 0 < n < order && OrderAtLeast(g, phi(b), order)
    ensures NeverExceptional(b, n, m)
    ensures phi(ScalarJac(b, n, m)) == Multiple(g, phi(b), n)
  {
    hide IsGroup, IsHomomorphism, OnJac, JacDouble, JacAdd, Exceptional;
    var a := phi(b);
    Respects(phi, g, b, b, B, m);
    Laws(g, a, a, a);
    if n == 1 {
      assert Multiple(g, a, 1) == g.op(a, Multiple(g, a, 0));
    } else {
      var i := n / 2;
      ScalarIsMultiple(phi, g, b, i, order, B, m);
      ScalarKeepsCurve(b, i, B, m);
      var s := ScalarJac(b, i, m);
      var d := JacDouble(s, m);
      DoubleKeepsCurve(s, B, m);
      MultipleSum(g, a, i, i);
      Respects(phi, g, s, s, B, m);
      assert phi(d) == Multiple(g, a, 2 * i);
      if n % 2 == 1 {
        EvenMultipleApart(g, a, 2 * i, order);
        Respects(phi, g, b, d, B, m);
        assert Multiple(g, a, n) == g.op(a, Multiple(g, a, 2 * i));
      }
    }
  }

  lemma Respects<G(!new)>(phi: Jac -> G, g: Group<G>, p: Jac, q: Jac, B: int, m: int)
    requires m > 0 && IsHomomorphism(phi, g, B, m) && OnJac(p, B, m) && OnJac(q, B, m)
    ensures RespectsFormulas(phi, g, p, q, m) && RespectsAffine(phi, g, p, m) && g.has(phi(p))
  {
    hide OnJac, RespectsFormulas, RespectsAffine;
  }

  /**
   For a prime P, a base point on the curve whose image has order N, and 0 < k < N: ScalarMult
   meets no exceptional addition, does not panic, and returns the affine form of k times the
   base point, which is again on the curve.
   */
  lemma ScalarMultIsMultiple<G(!new)>(phi: Jac -> G, g: Group<G>, c: BitCurve, a: Affine, k: seq<Byte>)
    requires IsPrime(c.P) && c.N > 0 && OnJac(Jac(a.x, a.y, 1), c.B, c.P)
    requires IsGroup(g) && IsHomomorphism(phi, g, c.B, c.P)
    requires OrderAtLeast(g, phi(Jac(a.x, a.y, 1)), c.N) && 0 < BigEndian(k) < c.N
    ensures var b, n := Jac(a.x, a.y, 1), BigEndian(k);
            var r := ProductOf(b, n, c.P);
            && NeverExceptional(b, n, c.P)
            && r.Point?
            && phi(Jac(r.at.x, r.at.y, 1)) == Multiple(g, phi(b), n)
            && Cong(r.at.y * r.at.y, Cube(r.at.x) + c.B, c.P)
  {
    hide IsGroup, IsHomomorphism, OnJac, ScalarJac, BigEndian, Multiple;
    var b, n := Jac(a.x, a.y, 1), BigEndian(k);
    var s := ScalarJac(b, n, c.P);
    ScalarIsMultiple(phi, g, b, n, c.N, c.B, c.P);
    ScalarKeepsCurve(b, n, c.B, c.P);
    assert Multiple(g, phi(b), n) != g.zero;
    PrimeInvertible(s.z, c.P);
    Respects(phi, g, s, s, c.B, c.P);
    AffineOnCurve(s, c.B, c.P);
  }

  /** The affine form of a point of the curve satisfies IsOnCurve's equation. */
  lemma AffineOnCurve(p: Jac, B: int, m: int)
    requires m > 0 && OnJac(p, B, m) && AffineOf(p, m).Some?
    ensures var a := AffineOf(p, m).value;
            Cong(a.y * a.y, Cube(a.x) + B, m)
  {
    var w := ModInverse(p.z, m).value;
    var z6, w3, w6 := Cube(p.z) * Cube(p.z), w * w * w, (w * w * w) * (w * w * w);
    var x, y := p.x * (w * w), p.y * w3;
    InversePowers(p.z, w, m);
    CongSq(Cube(p.z) * w3, 1, m);
    assert z6 * w6 == (Cube(p.z) * w3) * (Cube(p.z) * w3);
    CongMul(p.y * p.y, Cube(p.x) + B * z6, w6, w6, m);
    assert y * y == (p.y * p.y) * w6 by { FourProduct(p.y, w3, p.y, w3); }
    assert (Cube(p.x) + B * z6) * w6 == Cube(x) + B * (z6 * w6) by {
      CubeTimes(p.x, w * w);
      CubeTimes(w, w);
      var e := Cube(p.x);
      assert (e + B * z6) * w6 == e * w6 + B * (z6 * w6);
    }
    CongMul(B, B, z6 * w6, 1, m);
    CongAdd(Cube(x), Cube(x), B * (z6 * w6), B, m);
    CongMod(x, m);
    CongMod(y, m);
    CongSq(y % m, y, m);
    CongCube(x % m, x, m);
    CongAdd(Cube(x % m), Cube(x), B, B, m);
  }
}
