/**
 Congruence modulo a positive integer, written with Dafny's Euclidean `%`,
 which is what math/big's Mod computes.
 */
module ModArith {
  import opened Wrappers

  ghost predicate Cong(a: int, b: int, m: int)
    requires m > 0
  {
    a % m == b % m
  }

  lemma ModShift(x: int, k: int, m: int)
    requires m > 0
    ensures (x + m * k) % m == x % m
  {
    var q, r := x / m, x % m;
    assert x + m * k == m * (q + k) + r;
    DivModUnique(x + m * k, q + k, r, m);
  }

  lemma MulAtLeast(m: int, k: int)
    requires m > 0 && k >= 1
    ensures m * k >= m
  {
  }

  lemma DivModUnique(x: int, q: int, r: int, m: int)
    requires m > 0 && 0 <= r < m && x == m * q + r
    ensures x % m == r && x / m == q
  {
    var q', r' := x / m, x % m;
    assert m * (q - q') == r' - r;
    if q - q' >= 1 { MulAtLeast(m, q - q'); }
    if q' - q >= 1 { MulAtLeast(m, q' - q); }
  }

  lemma CongDiff(a: int, b: int, m: int) returns (k: int)
    requires m > 0 && Cong(a, b, m)
    ensures a == b + m * k
  {
    k := a / m - b / m;
    assert m * k == m * (a / m) - m * (b / m);
  }

  lemma CongFromDiff(a: int, b: int, k: int, m: int)
    requires m > 0 && a == b + m * k
    ensures Cong(a, b, m)
  {
    ModShift(b, k, m);
  }

  lemma CongMod(a: int, m: int)
    requires m > 0
    ensures Cong(a % m, a, m) && 0 <= a % m < m
  {
  }

  lemma CongAdd(a: int, b: int, c: int, d: int, m: int)
    requires m > 0 && Cong(a, b, m) && Cong(c, d, m)
    ensures Cong(a + c, b + d, m)
  {
    var k := CongDiff(a, b, m);
    var l := CongDiff(c, d, m);
    assert m * (k + l) == m * k + m * l;
    CongFromDiff(a + c, b + d, k + l, m);
  }

  lemma CongSub(a: int, b: int, c: int, d: int, m: int)
    requires m > 0 && Cong(a, b, m) && Cong(c, d, m)
    ensures Cong(a - c, b - d, m)
  {
    var k := CongDiff(a, b, m);
    var l := CongDiff(c, d, m);
    assert m * (k - l) == m * k - m * l;
    CongFromDiff(a - c, b - d, k - l, m);
  }

  lemma CongMul(a: int, b: int, c: int, d: int, m: int)
    requires m > 0 && Cong(a, b, m) && Cong(c, d, m)
    ensures Cong(a * c, b * d, m)
  {
    var k := CongDiff(a, b, m);
    var l := CongDiff(c, d, m);
    Spread(b, m, k, c);
    Spread(d, m, l, b);
    CongFromDiff(a * c, b * c, k * c, m);
    CongFromDiff(c * b, d * b, l * b, m);
    assert c * b == b * c && d * b == b * d;
  }

  lemma Spread(b: int, m: int, k: int, c: int)
    ensures (b + m * k) * c == b * c + m * (k * c)
  {
  }

  lemma CongSq(a: int, b: int, m: int)
    requires m > 0 && Cong(a, b, m)
    ensures Cong(a * a, b * b, m)
  {
    CongMul(a, b, a, b, m);
  }

  /** Equality of residues and vanishing of the difference are the same thing. */
  lemma CongIffZero(a: int, b: int, m: int)
    requires m > 0
    ensures Cong(a, b, m) <==> Cong(a - b, 0, m)
  {
    if Cong(a, b, m) {
      CongSub(a, b, b, b, m);
    }
    if Cong(a - b, 0, m) {
      CongAdd(a - b, 0, b, b, m);
    }
  }

  // ---------- inverses ----------

  ghost predicate IsInverse(z: int, w: int, m: int)
    requires m > 0
  {
    Cong(z * w, 1, m)
  }

  /** math/big's ModInverse: the inverse of z in [0, m), or nothing when z has none. */
  function ModInverse(z: int, m: int): (r: Option<int>)
    requires m > 0
    ensures r.Some? ==> 0 <= r.value < m && IsInverse(z, r.value, m)
    ensures r.None? ==> forall w :: 0 <= w < m ==> !IsInverse(z, w, m)
  {
    InverseFrom(z, m, 0)
  }

  function InverseFrom(z: int, m: int, from: nat): (r: Option<int>)
    requires m > 0 && from <= m
    ensures r.Some? ==> from <= r.value < m && IsInverse(z, r.value, m)
    ensures r.None? ==> forall w :: from <= w < m ==> !IsInverse(z, w, m)
    decreases m - from
  {
    if from == m then None
    else if (z * from) % m == 1 % m then Some(from)
    else InverseFrom(z, m, from + 1)
  }

  /** Any inverse at all, reduced or not, makes ModInverse succeed. */
  lemma InverseExists(z: int, w: int, m: int)
    requires m > 0 && Cong(z * w, 1, m)
    ensures ModInverse(z, m).Some?
  {
    CongMod(w, m);
    CongMul(z, z, w % m, w, m);
    assert IsInverse(z, w % m, m);
  }

  lemma ModInverseCong(z: int, z': int, m: int)
    requires m > 0 && Cong(z, z', m)
    ensures ModInverse(z, m).Some? <==> ModInverse(z', m).Some?
  {
    if ModInverse(z, m).Some? {
      var w := ModInverse(z, m).value;
      CongMul(z', z, w, w, m);
      InverseExists(z', w, m);
    }
    if ModInverse(z', m).Some? {
      var w := ModInverse(z', m).value;
      CongMul(z, z', w, w, m);
      InverseExists(z, w, m);
    }
  }

  ghost predicate IsPrime(p: int) {
    p > 1 && forall d :: 1 < d < p ==> p % d != 0
  }

  /** Bezout by Euclid's remainder step: everything below a prime is invertible. */
  lemma {:induction false} PrimeInverse(z: int, p: int) returns (w: int)
    requires IsPrime(p) && 0 < z < p
    ensures Cong(z * w, 1, p)
    decreases z
  {
    if z == 1 {
      w := 1;
    } else {
      var q, r := p / z, p % z;
      var v := PrimeInverse(r, p);
      w := -(q * v);
      assert z * w == r * v + p * -v by {
        assert p == z * q + r;
        assert p * v == z * q * v + r * v;
      }
      CongFromDiff(z * w, r * v, -v, p);
    }
  }

  /** For a prime modulus, ModInverse fails exactly on the multiples of it. */
  lemma PrimeInvertible(z: int, p: int)
    requires IsPrime(p)
    ensures ModInverse(z, p).Some? <==> !Cong(z, 0, p)
  {
    if Cong(z, 0, p) {
      if ModInverse(z, p).Some? {
        var w := ModInverse(z, p).value;
        CongMul(z, 0, w, w, p);
        assert false;
      }
    } else {
      var w := PrimeInverse(z % p, p);
      CongMod(z, p);
      CongMul(z % p, z, w, w, p);
      InverseExists(z, w, p);
    }
  }

  /** A prime has no zero divisors. */
  lemma PrimeProduct(a: int, b: int, p: int)
    requires IsPrime(p) && !Cong(a, 0, p) && !Cong(b, 0, p)
    ensures !Cong(a * b, 0, p)
  {
    PrimeInvertible(a, p);
    var w := ModInverse(a, p).value;
    if Cong(a * b, 0, p) {
      CongMul(a * w, 1, b, b, p);
      assert a * w * b == a * b * w;
      CongMul(a * b, 0, w, w, p);
      assert false;
    }
  }
}
