/**
 secp-k1 curve arithmetic (crypto/curve.go): Jacobian addition and doubling, as the source
 computes them with temporaries overwritten in place, against the closed formulas.

 big.Int values are unbounded integers and math/big's Mod is the Euclidean `%`.
 */
module Curve {
  import opened Wrappers
  import opened Bytes
  import opened ModArith
  import opened Powers

  datatype Jac = Jac(x: int, y: int, z: int)
  datatype Affine = Affine(x: int, y: int)

  // ---------- closed formulas, before reduction ----------

  function U1(p: Jac, q: Jac): int { p.x * (q.z * q.z) }
  function U2(p: Jac, q: Jac): int { q.x * (p.z * p.z) }
  function S1(p: Jac, q: Jac): int { p.y * q.z * (q.z * q.z) }
  function S2(p: Jac, q: Jac): int { q.y * p.z * (p.z * p.z) }
  function H(p: Jac, q: Jac): int { U2(p, q) - U1(p, q) }
  function R(p: Jac, q: Jac): int { S2(p, q) - S1(p, q) }

  /** R^2 - H^3 - 2 U H^2. */
  function ChordX(u: int, h: int, r: int): int {
    r * r - h * (h * h) - 2 * (u * (h * h))
  }

  /** R (U H^2 - X) - S H^3. */
  function ChordY(u: int, s: int, h: int, r: int): int {
    r * (u * (h * h) - ChordX(u, h, r)) - s * (h * (h * h))
  }

  /** The add-2007-bl sum: the coordinates scaled by 4, 8 and 2. */
  function JacAdd(p: Jac, q: Jac, m: int): Jac
    requires m > 0
  {
    Jac((4 * ChordX(U1(p, q), H(p, q), R(p, q))) % m,
        (8 * ChordY(U1(p, q), S1(p, q), H(p, q), R(p, q))) % m,
        (2 * (p.z * q.z) * H(p, q)) % m)
  }

  /** (3 x^2)^2 - 2 (4 x y^2). */
  function TangentX(x: int, y: int): int {
    (3 * (x * x)) * (3 * (x * x)) - 2 * (4 * (x * (y * y)))
  }

  /** 3 x^2 (4 x y^2 - X) - 8 y^4. */
  function TangentY(x: int, y: int): int {
    (3 * (x * x)) * (4 * (x * (y * y)) - TangentX(x, y)) - 8 * ((y * y) * (y * y))
  }

  /** The dbl-2009-l double. */
  function JacDouble(p: Jac, m: int): Jac
    requires m > 0
  {
    Jac(TangentX(p.x, p.y) % m, TangentY(p.x, p.y) % m, (2 * (p.y * p.z)) % m)
  }

  /** affineFromJacobian: (x / z^2, y / z^3), or nothing where ModInverse returns nil. */
  function AffineOf(p: Jac, m: int): Option<Affine>
    requires m > 0
  {
    match ModInverse(p.z, m)
    case None => None
    case Some(w) => Some(Affine((p.x * (w * w)) % m, (p.y * (w * w * w)) % m))
  }

  /** n (at least 1) times the point, by the recursion on the bits of n that ScalarMult unrolls. */
  function ScalarJac(b: Jac, n: nat, m: int): Jac
    requires m > 0 && n > 0
  {
    if n == 1 then b
    else
      var d := JacDouble(ScalarJac(b, n / 2, m), m);
      if n % 2 == 1 then JacAdd(b, d, m) else d
  }

  /** What ScalarMult gives back: (nil, nil), a nil dereference in affineFromJacobian, or a point. */
  datatype Product = NilPoint | Panic | Point(at: Affine)

  function ProductOf(b: Jac, n: nat, m: int): Product
    requires m > 0
  {
    if n == 0 then NilPoint
    else match AffineOf(ScalarJac(b, n, m), m)
      case None => Panic
      case Some(a) => Point(a)
  }

  /**
   One bit of the inner loop: `rest` is the unread part of the byte, `e` bits wide, held
   shifted to the top of the byte.
   */
  lemma TopBit(rest: nat, e: nat, shifted: int)
    requires 0 < e <= 8 && rest < Pow(2, e) && shifted == rest * Pow(2, 8 - e)
    ensures Pow(2, e) == 2 * Pow(2, e - 1)
    ensures var bit := if shifted >= 128 then 1 else 0;
            && 0 <= rest - bit * Pow(2, e - 1) < Pow(2, e - 1)
            && (shifted * 2) % 256 == (rest - bit * Pow(2, e - 1)) * Pow(2, 8 - (e - 1))
  {
    Halves(e);
    TopBitOf(rest, Pow(2, e - 1), Pow(2, 8 - e), shifted);
  }

  lemma Halves(e: nat)
    requires 0 < e <= 8
    ensures Pow(2, e) == 2 * Pow(2, e - 1) && Pow(2, 9 - e) == 2 * Pow(2, 8 - e)
    ensures Pow(2, e - 1) * Pow(2, 8 - e) == 128
  {
    assert Pow(2, 0) == 1 && Pow(2, 1) == 2 && Pow(2, 2) == 4 && Pow(2, 3) == 8;
    assert Pow(2, 4) == 16 && Pow(2, 5) == 32 && Pow(2, 6) == 64 && Pow(2, 7) == 128;
  }

  lemma PowersOfAByte()
    ensures Pow(2, 0) == 1 && Pow(2, 8) == 256
  {
  }

  lemma TopBitOf(rest: nat, half: nat, up: nat, shifted: int)
    requires half * up == 128 && rest < 2 * half && shifted == rest * up
    ensures var bit := if shifted >= 128 then 1 else 0;
            0 <= rest - bit * half < half && (shifted * 2) % 256 == (rest - bit * half) * (2 * up)
  {
    if rest >= half {
      Shifted(rest - half, half, up, 1);
    } else {
      Shifted(rest, half, up, 0);
    }
  }

  lemma Shifted(r: nat, half: nat, up: nat, bit: nat)
    requires half * up == 128 && r < half && bit <= 1
    ensures (r + bit * half) * up == r * up + bit * 128
    ensures 0 <= r * up < 128 && r * (2 * up) == 2 * (r * up)
  {
  }

  // ---------- what each stage of addJacobian holds ----------

  /** The formulas respect congruence of their arguments. */
  lemma ChordCong(u: int, s: int, h: int, r: int, u': int, s': int, h': int, r': int, m: int)
    requires m > 0 && Cong(u, u', m) && Cong(s, s', m) && Cong(h, h', m) && Cong(r, r', m)
    ensures Cong(ChordX(u, h, r), ChordX(u', h', r'), m)
    ensures Cong(ChordY(u, s, h, r), ChordY(u', s', h', r'), m)
  {
    CongSq(r, r', m);
    CongSq(h, h', m);
    CongMul(h, h', h * h, h' * h', m);
    CongMul(u, u', h * h, h' * h', m);
    CongMul(2, 2, u * (h * h), u' * (h' * h'), m);
    CongSub(r * r, r' * r', h * (h * h), h' * (h' * h'), m);
    CongSub(r * r - h * (h * h), r' * r' - h' * (h' * h'), 2 * (u * (h * h)), 2 * (u' * (h' * h')), m);
    var x, x' := ChordX(u, h, r), ChordX(u', h', r');
    CongSub(u * (h * h), u' * (h' * h'), x, x', m);
    CongMul(r, r', u * (h * h) - x, u' * (h' * h') - x', m);
    CongMul(s, s', h * (h * h), h' * (h' * h'), m);
    CongSub(r * (u * (h * h) - x), r' * (u' * (h' * h') - x'), s * (h * (h * h)), s' * (h' * (h' * h')), m);
  }

  /** x * s reduced, with s congruent to t, is x * t. */
  lemma ReducedProduct(x: int, s: int, t: int, m: int)
    requires m > 0 && Cong(s, t, m)
    ensures Cong((x * s) % m, x * t, m) && 0 <= (x * s) % m < m
  {
    CongMul(x, x, s, t, m);
    CongMod(x * s, m);
  }

  /** A difference of residues, repaired when negative. */
  lemma RepairedDifference(a: int, b: int, c: int, d: int, m: int)
    requires m > 0 && 0 <= a < m && 0 <= b < m && Cong(a, c, m) && Cong(b, d, m)
    ensures var e := if a - b < 0 then a - b + m else a - b;
            0 <= e < m && Cong(e, c - d, m)
  {
    CongSub(a, c, b, d, m);
    ModShift(a - b, 1, m);
  }

  lemma XStage(u: int, h: int, r: int, m: int)
    requires m > 0
    ensures var i := (h * 2) * (h * 2);
            (r * 2) * (r * 2) - h * i - u * i - u * i == 4 * ChordX(u, h, r)
  {
  }

  lemma YIdentity(u: int, s: int, h: int, r: int, x: int)
    ensures var i := (h * 2) * (h * 2);
            (r * 2) * (u * i - 4 * x) - (s * (h * i)) * 2 == 8 * (r * (u * (h * h) - x) - s * (h * (h * h)))
  {
  }

  lemma YStage(u: int, s: int, h: int, r: int, x3: int, m: int)
    requires m > 0 && Cong(x3, 4 * ChordX(u, h, r), m)
    ensures var i := (h * 2) * (h * 2);
            Cong((r * 2) * (u * i - x3) - (s * (h * i)) * 2, 8 * ChordY(u, s, h, r), m)
  {
    var i, x := (h * 2) * (h * 2), ChordX(u, h, r);
    var t, v := s * (h * i) * 2, u * i;
    YIdentity(u, s, h, r, x);
    CongSub(v, v, x3, 4 * x, m);
    CongMul(r * 2, r * 2, v - x3, v - 4 * x, m);
    CongSub((r * 2) * (v - x3), (r * 2) * (v - 4 * x), t, t, m);
  }

  /** (z1 + z2)^2 - z1^2 - z2^2 with each subtraction repaired, times h. */
  lemma CrossProduct(x: int, b: int)
    ensures (x + b) * (x + b) - x * x - b * b == 2 * (x * b)
  {
  }

  lemma TangentForms(x: int, y: int)
    ensures var e, d := 3 * (x * x), 4 * (x * (y * y));
            && TangentX(x, y) == e * e - 2 * d
            && TangentY(x, y) == e * (d - TangentX(x, y)) - 8 * ((y * y) * (y * y))
  {
  }

  lemma TangentYStage(e: int, d: int, x3: int, x: int, c: int, m: int)
    requires m > 0 && Cong(x3, x, m)
    ensures Cong(e * (d - x3) - c, e * (d - x) - c, m)
  {
    CongSub(d, d, x3, x, m);
    CongMul(e, e, d - x3, d - x, m);
    CongSub(e * (d - x3), e * (d - x), c, c, m);
  }

  lemma ZStage(z1: int, z2: int, a: int, b: int, h: int, h': int, z: int, m: int)
    requires m > 0 && Cong(a, z1 * z1, m) && Cong(b, z2 * z2, m) && Cong(h, h', m)
    requires Cong(z, (z1 + z2) * (z1 + z2) - a - b, m)
    ensures Cong(z * h, 2 * (z1 * z2) * h', m)
  {
    var t := (z1 + z2) * (z1 + z2);
    CongSub(t, t, a, z1 * z1, m);
    CongSub(t - a, t - z1 * z1, b, z2 * z2, m);
    assert t - z1 * z1 - z2 * z2 == 2 * (z1 * z2);
    CongMul(z, 2 * (z1 * z2), h, h', m);
  }

  // ---------- the code ----------

  datatype BitCurve = BitCurve(P: int, N: int, B: int, Gx: int, Gy: int, BitSize: nat)
  {
    predicate Valid() { P > 0 }

    /** y^2 = x^3 + B modulo P. */
    method IsOnCurve(x: int, y: int) returns (ok: bool)
      requires Valid()
      ensures ok <==> Cong(y * y, x * x * x + B, P)
    {
      var y2 := y * y;
      y2 := y2 % P;
      var x3 := x * x;
      x3 := x3 * x;
      x3 := x3 + B;
      x3 := x3 % P;
      ok := x3 == y2;
    }

    /** A point whose z has no inverse modulo P makes the source dereference nil: None here. */
    method AffineFromJacobian(x: int, y: int, z: int) returns (r: Option<Affine>)
      requires Valid()
      ensures r == AffineOf(Jac(x, y, z), P)
    {
      var inv := ModInverse(z, P);
      if inv.None? {
        return None;
      }
      var zinv := inv.value;
      var zinvsq := zinv * zinv;
      var xOut := x * zinvsq;
      xOut := xOut % P;
      zinvsq := zinvsq * zinv;
      var yOut := y * zinvsq;
      yOut := yOut % P;
      return Some(Affine(xOut, yOut));
    }

    method Add(x1: int, y1: int, x2: int, y2: int) returns (r: Option<Affine>)
      requires Valid()
      ensures r == AffineOf(JacAdd(Jac(x1, y1, 1), Jac(x2, y2, 1), P), P)
    {
      var z := 1;
      var x, y, z' := AddJacobian(x1, y1, z, x2, y2, z);
      r := AffineFromJacobian(x, y, z');
    }

    method Double(x1: int, y1: int) returns (r: Option<Affine>)
      requires Valid()
      ensures r == AffineOf(JacDouble(Jac(x1, y1, 1), P), P)
    {
      var z1 := 1;
      var x, y, z := DoubleJacobian(x1, y1, z1);
      r := AffineFromJacobian(x, y, z);
    }

    method AddJacobian(x1: int, y1: int, z1: int, x2: int, y2: int, z2: int)
      returns (x3: int, y3: int, z3: int)
      requires Valid()
      ensures Jac(x3, y3, z3) == JacAdd(Jac(x1, y1, z1), Jac(x2, y2, z2), P)
      ensures 0 <= x3 < P && 0 <= y3 < P && 0 <= z3 < P
    {
      ghost var p, q := Jac(x1, y1, z1), Jac(x2, y2, z2);
      var z1z1 := z1 * z1;
      z1z1 := z1z1 % P;
      var z2z2 := z2 * z2;
      z2z2 := z2z2 % P;
      CongMod(z1 * z1, P);
      CongMod(z2 * z2, P);

      var u1 := x1 * z2z2;
      u1 := u1 % P;
      var u2 := x2 * z1z1;
      u2 := u2 % P;
      ReducedProduct(x1, z2z2, z2 * z2, P);
      ReducedProduct(x2, z1z1, z1 * z1, P);
      var h := u2 - u1;
      if h < 0 {
        h := h + P;
      }
      RepairedDifference(u2, u1, U2(p, q), U1(p, q), P);
      var i := h * 2;
      i := i * i;
      var j := h * i;

      var s1 := y1 * z2;
      s1 := s1 * z2z2;
      s1 := s1 % P;
      var s2 := y2 * z1;
      s2 := s2 * z1z1;
      s2 := s2 % P;
      ReducedProduct(y1 * z2, z2z2, z2 * z2, P);
      ReducedProduct(y2 * z1, z1z1, z1 * z1, P);
      var r := s2 - s1;
      if r < 0 {
        r := r + P;
      }
      RepairedDifference(s2, s1, S2(p, q), S1(p, q), P);
      ghost var s, r0 := s1, r;
      ChordCong(u1, s, h, r0, U1(p, q), S1(p, q), H(p, q), R(p, q), P);
      r := r * 2;
      var v := u1 * i;

      x3 := r;
      x3 := x3 * x3;
      x3 := x3 - j;
      x3 := x3 - v;
      x3 := x3 - v;
      XStage(u1, h, r0, P);
      CongMod(x3, P);
      CongMul(4, 4, ChordX(u1, h, r0), ChordX(U1(p, q), H(p, q), R(p, q)), P);
      x3 := x3 % P;

      y3 := r;
      v := v - x3;
      y3 := y3 * v;
      s1 := s1 * j;
      s1 := s1 * 2;
      y3 := y3 - s1;
      YStage(u1, s, h, r0, x3, P);
      CongMul(8, 8, ChordY(u1, s, h, r0), ChordY(U1(p, q), S1(p, q), H(p, q), R(p, q)), P);
      CongMod(y3, P);
      y3 := y3 % P;

      z3 := z1 + z2;
      z3 := z3 * z3;
      z3 := z3 - z1z1;
      ghost var e0 := z3;
      if z3 < 0 {
        z3 := z3 + P;
        ModShift(e0, 1, P);
      }
      CongSub(z3, e0, z2z2, z2z2, P);
      z3 := z3 - z2z2;
      ghost var e1 := z3;
      if z3 < 0 {
        z3 := z3 + P;
        ModShift(e1, 1, P);
      }
      ZStage(z1, z2, z1z1, z2z2, h, H(p, q), z3, P);
      z3 := z3 * h;
      CongMod(z3, P);
      z3 := z3 % P;
    }

    method DoubleJacobian(x: int, y: int, z: int) returns (x3: int, y3: int, z3: int)
      requires Valid()
      ensures Jac(x3, y3, z3) == JacDouble(Jac(x, y, z), P)
      ensures 0 <= x3 < P && 0 <= y3 < P && 0 <= z3 < P
    {
      hide TangentX, TangentY;
      var a := x * x;
      var b := y * y;
      var c := b * b;
      CrossProduct(x, b);
      TangentForms(x, y);

      var d := x + b;
      d := d * d;
      d := d - a;
      d := d - c;
      d := d * 2;
      assert d == 4 * (x * b);

      var e := 3 * a;
      var f := e * e;

      x3 := 2 * d;
      x3 := f - x3;
      CongMod(x3, P);
      x3 := x3 % P;

      y3 := d - x3;
      y3 := e * y3;
      y3 := y3 - 8 * c;
      TangentYStage(e, d, x3, TangentX(x, y), 8 * c, P);
      y3 := y3 % P;
      CongMod(y3, P);

      z3 := y * z;
      z3 := 2 * z3;
      CongMod(z3, P);
      z3 := z3 % P;
    }

    /** byte & 0x80 tests the top bit and byte <<= 1 drops it. */
    method ScalarMult(Bx: int, By: int, k: seq<Byte>) returns (r: Product)
      requires Valid()
      ensures r == ProductOf(Jac(Bx, By, 1), BigEndian(k), P)
    {
      hide Pow, JacAdd, JacDouble, AffineOf, BigEndian, ScalarJac;
      var Bz := 1;
      var x, y, z := Bx, By, Bz;
      ghost var b := Jac(Bx, By, 1);
      ghost var n: nat := 0;

      var seenFirstTrue := false;
      NoBytes(k);
      for i := 0 to |k|
        invariant n == BigEndian(k[..i])
        invariant seenFirstTrue <==> n > 0
        invariant Jac(x, y, z) == if n > 0 then ScalarJac(b, n, P) else b
      {
        var byte: int := k[i];
        ghost var rest: nat := byte;
        NextByte(k, i);
        PowersOfAByte();
        for bitNum := 0 to 8
          invariant n * Pow(2, 8 - bitNum) + rest == BigEndian(k[..i + 1])
          invariant rest < Pow(2, 8 - bitNum) && byte == rest * Pow(2, bitNum)
          invariant seenFirstTrue <==> n > 0
          invariant Jac(x, y, z) == if n > 0 then ScalarJac(b, n, P) else b
        {
          ghost var before := n;
          TopBit(rest, 8 - bitNum, byte);
          NextMultiple(b, before, P);
          if seenFirstTrue {
            x, y, z := DoubleJacobian(x, y, z);
          }
          n := 2 * before;
          if byte >= 128 {
            if !seenFirstTrue {
              seenFirstTrue := true;
            } else {
              x, y, z := AddJacobian(Bx, By, Bz, x, y, z);
            }
            n := 2 * before + 1;
            rest := rest - Pow(2, 7 - bitNum);
          }
          NextBit(before, n, Pow(2, 7 - bitNum));
          byte := (byte * 2) % 256;
        }
      }
      assert k[..|k|] == k;

      if !seenFirstTrue {
        return NilPoint;
      }

      var a := AffineFromJacobian(x, y, z);
      return match a case None => Panic case Some(p) => Point(p);
    }
  }

  lemma NoBytes(k: seq<Byte>)
    ensures BigEndian(k[..0]) == 0
  {
  }

  lemma NextByte(k: seq<Byte>, i: nat)
    requires i < |k|
    ensures BigEndian(k[..i + 1]) == BigEndian(k[..i]) * 256 + k[i]
  {
    assert k[..i + 1][..i] == k[..i];
  }

  lemma NextMultiple(b: Jac, n: nat, m: int)
    requires m > 0
    ensures ScalarJac(b, 1, m) == b
    ensures n > 0 ==> ScalarJac(b, 2 * n, m) == JacDouble(ScalarJac(b, n, m), m)
    ensures n > 0 ==> ScalarJac(b, 2 * n + 1, m) == JacAdd(b, JacDouble(ScalarJac(b, n, m), m), m)
  {
    hide JacAdd, JacDouble;
    assert 2 * n / 2 == n && (2 * n + 1) / 2 == n && 2 * n % 2 == 0 && (2 * n + 1) % 2 == 1;
  }

  lemma NextBit(before: nat, n: nat, w: nat)
    requires n == 2 * before || n == 2 * before + 1
    ensures n / 2 == before
    ensures n * w == before * (2 * w) + (n - 2 * before) * w
  {
  }
}
