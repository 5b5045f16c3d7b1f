/**
 Exp and U256 of common/math/big.go on big.Int objects. Exp squares its base in place, although its
 comment says that base and exponent are left alone; ExpOnCopy is what the comment describes.
 */
module BigExp {
  import opened ModArith
  import opened Powers

  /** 2 to the 256. */
  function Top(): int {
    Pow(2, 256)
  }

  /** big.Int's Bits: the words of the absolute value, low word first, none for 0. */
  function WordsOf(n: nat, base: nat): seq<nat>
    requires base > 1
  {
    if n == 0 then []
    else
      DivSmaller(n, base);
      [n % base] + WordsOf(n / base, base)
  }

  lemma DivSmaller(n: nat, base: nat)
    requires base > 1 && n > 0
    ensures n / base < n && n == n % base + base * (n / base)
  {
    var q := n / base;
    assert n == n % base + base * q;
    AtLeastTwice(base, q);
  }

  lemma AtLeastTwice(base: nat, q: nat)
    requires base > 1
    ensures base * q >= 2 * q
  {
  }

  function ValueOf(ws: seq<nat>, base: nat): nat {
    if ws == [] then 0 else ws[0] + base * ValueOf(ws[1..], base)
  }

  lemma {:induction false} WordsRoundTrip(n: nat, base: nat)
    requires base > 1
    ensures ValueOf(WordsOf(n, base), base) == n
    ensures forall i :: 0 <= i < |WordsOf(n, base)| ==> WordsOf(n, base)[i] < base
    ensures n > 0 ==> WordsOf(n, base) != [] && WordsOf(n, base)[|WordsOf(n, base)| - 1] > 0
  {
    if n > 0 {
      DivSmaller(n, base);
      WordsRoundTrip(n / base, base);
      var rest := WordsOf(n / base, base);
      assert ([n % base] + rest)[1..] == rest;
    }
  }

  /** 1 and 64 zeros in hexadecimal. */
  lemma TopIs()
    ensures Top() == 0x1_0000000000000000_0000000000000000_0000000000000000_0000000000000000
  {
    hide Pow;
    TwoTo16();
    PowTwice(16);
    PowTwice(32);
    PowTwice(64);
    PowTwice(128);
  }

  lemma TwoTo16()
    ensures Pow(2, 16) == 0x1_0000
  {
    assert Pow(2, 8) == 256;
    assert Pow(2, 12) == 16 * Pow(2, 8);
  }

  lemma PowTwice(n: nat)
    ensures Pow(2, 2 * n) == Pow(2, n) * Pow(2, n)
  {
    hide Pow;
    PowAdd(2, n, n);
    assert n + n == 2 * n;
  }

  // ---------- congruences of powers ----------

  lemma {:induction false} PowCong(a: int, b: int, n: nat, m: int)
    requires m > 0 && Cong(a, b, m)
    ensures Cong(Pow(a, n), Pow(b, n), m)
  {
    if n > 0 {
      PowCong(a, b, n - 1, m);
      CongMul(a, b, Pow(a, n - 1), Pow(b, n - 1), m);
    }
  }

  lemma {:induction false} PowSquare(b: int, n: nat)
    ensures Pow(b * b, n) == Pow(b, 2 * n)
  {
    if n > 0 {
      PowSquare(b, n - 1);
      assert Pow(b, 2 * n) == b * (b * Pow(b, 2 * n - 2));
      assert b * (b * Pow(b, 2 * n - 2)) == (b * b) * Pow(b, 2 * n - 2);
    }
  }

  lemma PowNext(b: int, n: nat)
    ensures Pow(b, n + 1) == b * Pow(b, n)
  {
  }

  /** One turn of the inner loop: r * base^n is kept, n losing its last bit. */
  lemma TurnKeeps(r: int, b: int, n: nat, r': int, b': int, m: int)
    requires m > 0 && Cong(b', b * b, m)
    requires if n % 2 == 1 then Cong(r', r * b, m) else r' == r
    ensures Cong(r' * Pow(b', n / 2), r * Pow(b, n), m)
  {
    hide Pow;
    var h := n / 2;
    PowCong(b', b * b, h, m);
    PowSquare(b, h);
    if n % 2 == 1 {
      CongMul(r', r * b, Pow(b', h), Pow(b, 2 * h), m);
      Grouped(r, b, Pow(b, 2 * h));
      PowNext(b, 2 * h);
    } else {
      CongMul(r', r, Pow(b', h), Pow(b, 2 * h), m);
    }
  }

  // ---------- the bits of an integer ----------

  /** Bit i in two's complement, of which a negative number has infinitely many ones. */
  predicate Bit(x: int, i: nat)
    decreases i
  {
    if i == 0 then x % 2 == 1 else Bit(x / 2, i - 1)
  }

  function Size(x: int): nat {
    if x < 0 then -1 - x else x
  }

  /** The bitwise and, from the lowest bit up. */
  function And(x: int, y: int): int
    decreases Size(x)
  {
    if x == 0 || y == 0 then 0
    else if x == -1 then y
    else if y == -1 then x
    else 2 * And(x / 2, y / 2) + if x % 2 == 1 && y % 2 == 1 then 1 else 0
  }

  lemma {:induction false} BitsOfEnds(i: nat)
    ensures !Bit(0, i) && Bit(-1, i)
  {
    if i > 0 {
      BitsOfEnds(i - 1);
    }
  }

  /** A bit of And is set exactly when it is in both. */
  lemma {:induction false} AndBits(x: int, y: int, i: nat)
    ensures Bit(And(x, y), i) <==> Bit(x, i) && Bit(y, i)
    decreases i
  {
    BitsOfEnds(i);
    if x != 0 && x != -1 && y != 0 && y != -1 && i > 0 {
      AndBits(x / 2, y / 2, i - 1);
      assert And(x, y) / 2 == And(x / 2, y / 2);
    }
  }

  /** The mask of n ones keeps the remainder modulo 2^n, of a negative number too. */
  lemma {:induction false} AndMask(x: int, n: nat)
    ensures And(x, Pow(2, n) - 1) == x % Pow(2, n)
    decreases n
  {
    if n > 0 && x != 0 && x != -1 {
      var p := Pow(2, n - 1);
      assert (2 * p - 1) / 2 == p - 1 && (2 * p - 1) % 2 == 1;
      AndMask(x / 2, n - 1);
      RemainderTwice(x, p);
    } else if x == -1 {
      assert -1 == Pow(2, n) * -1 + (Pow(2, n) - 1);
      DivModUnique(-1, -1, Pow(2, n) - 1, Pow(2, n));
    }
  }

  lemma RemainderTwice(x: int, p: int)
    requires p > 0
    ensures x % (2 * p) == 2 * (x / 2 % p) + x % 2
  {
    var q, r := x / 2 / p, x / 2 % p;
    assert x / 2 == p * q + r;
    assert x == (2 * p) * q + (2 * r + x % 2);
    DivModUnique(x, q, 2 * r + x % 2, 2 * p);
  }


  // ---------- the code ----------

  class BigInt {
    var v: int

    constructor (x: int)
      ensures v == x
    {
      v := x;
    }

    /** z.Mul(x, y) */
    method Mul(x: BigInt, y: BigInt)
      modifies this
      ensures v == old(x.v) * old(y.v)
    {
      v := x.v * y.v;
    }

    /** z.And(x, y), y a constant */
    method AndWith(x: BigInt, y: int)
      modifies this
      ensures v == And(old(x.v), y)
    {
      v := And(x.v, y);
    }
  }

  /** U256: And with 2^256 - 1, which for a negative number too is the remainder. */
  method U256(x: BigInt)
    modifies x
    ensures x.v == And(old(x.v), Top() - 1) == old(x.v) % Top() && Cong(x.v, old(x.v), Top())
  {
    hide And, Pow;
    AndMask(x.v, 256);
    CongMod(x.v, Top());
    x.AndWith(x, Top() - 1);
  }

  // ---------- Exp ----------

  function Abs(x: int): (r: nat)
    ensures r == x || r == -x
  {
    if x < 0 then -x else x
  }

  predicate IsWordBits(wordBits: nat) {
    wordBits == 32 || wordBits == 64
  }

  function WordCount(x: int, wordBits: nat): nat
    requires IsWordBits(wordBits)
  {
    TwoPower(wordBits);
    |WordsOf(Abs(x), Pow(2, wordBits))|
  }

  /** What squaring in place makes of the base. */
  function Squared(b: int, times: nat): int {
    if times == 0 then b else Pow(b, Pow(2, times)) % Top()
  }

  lemma TwoPower(n: nat)
    requires n > 0
    ensures Pow(2, n) > 1
  {
  }

  lemma {:induction false} PowAdd(b: int, m: nat, n: nat)
    ensures Pow(b, m) * Pow(b, n) == Pow(b, m + n)
  {
    if m > 0 {
      PowAdd(b, m - 1, n);
      Grouped(b, Pow(b, m - 1), Pow(b, n));
      assert m + n - 1 == m - 1 + n;
    }
  }

  lemma Grouped(a: int, b: int, c: int)
    ensures (a * b) * c == a * (b * c)
  {
  }

  /** base ^ (2 ^ t), squared. */
  lemma SquareOnce(b: int, t: nat, v: int, v': int, m: int)
    requires m > 0 && Cong(v, Pow(b, Pow(2, t)), m) && Cong(v', v * v, m)
    ensures Cong(v', Pow(b, Pow(2, t + 1)), m)
  {
    var n := Pow(2, t);
    CongMul(v, Pow(b, n), v, Pow(b, n), m);
    PowAdd(b, n, n);
  }

  /** The exponent still to be used: the rest of the word, left bits wide, and the words above it. */
  function Unused(word: nat, above: nat, left: nat): nat {
    word + above * Pow(2, left)
  }

  lemma NextBit(word: nat, above: nat, left: nat)
    requires left > 0 && word < Pow(2, left)
    ensures Unused(word, above, left) / 2 == Unused(word / 2, above, left - 1)
    ensures Unused(word, above, left) % 2 == word % 2
    ensures word / 2 < Pow(2, left - 1)
  {
  }

  /** One word: the inner loop of Exp. */
  method ExpWord(result: BigInt, base: BigInt, w: nat, wordBits: nat, ghost above: nat, ghost b: int, ghost t: nat)
    requires result != base && 0 <= result.v < Top() && w < Pow(2, wordBits)
    requires Cong(base.v, Pow(b, Pow(2, t)), Top())
    modifies result, base
    ensures 0 <= result.v < Top()
    ensures Cong(result.v * Pow(base.v, above), old(result.v * Pow(base.v, Unused(w, above, wordBits))), Top())
    ensures Cong(base.v, Pow(b, Pow(2, t + wordBits)), Top())
    ensures wordBits > 0 ==> 0 <= base.v < Top()
  {
    hide Pow, Unused;
    ghost var m, target := Top(), result.v * Pow(base.v, Unused(w, above, wordBits));
    TwoPower(256);
    LastBit(above);
    var word: nat := w;
    for i := 0 to wordBits
      invariant 0 <= result.v < m && word < Pow(2, wordBits - i)
      invariant Cong(result.v * Pow(base.v, Unused(word, above, wordBits - i)), target, m)
      invariant Cong(base.v, Pow(b, Pow(2, t + i)), m)
      invariant i > 0 ==> 0 <= base.v < m
    {
      ghost var r0, b0, n := result.v, base.v, Unused(word, above, wordBits - i);
      NextBit(word, above, wordBits - i);
      if word % 2 == 1 {
        result.Mul(result, base);
        U256(result);
      }
      base.Mul(base, base);
      U256(base);
      CongMod(b0 * b0, m);
      TurnKeeps(r0, b0, n, result.v, base.v, m);
      SquareOnce(b, t + i, b0, base.v, m);
      word := word / 2;
    }
  }

  lemma LastBit(above: nat)
    ensures Pow(2, 0) == 1 && Unused(0, above, 0) == above
  {
  }

  /**
   Exp as written: the power, truncated to 256 bits, for every base and every exponent held in
   another object. Of a negative exponent the absolute value counts. The base ends up squared
   once for every bit of the exponent's words.
   */
  method ExpAsWritten(base: BigInt, exponent: BigInt, wordBits: nat) returns (result: BigInt)
    requires IsWordBits(wordBits) && base != exponent
    modifies base
    ensures fresh(result) && exponent.v == old(exponent.v)
    ensures result.v == Pow(old(base.v), Abs(exponent.v)) % Top()
    ensures base.v == Squared(old(base.v), wordBits * WordCount(exponent.v, wordBits))
  {
    hide Pow, WordsOf, ValueOf;
    ghost var b, e, m := base.v, Abs(exponent.v), Top();
    TwoPower(256);
    TwoPower(wordBits);
    SmallPowers(b);
    var wordBase := Pow(2, wordBits);
    var words := WordsOf(Abs(exponent.v), wordBase);
    WordsRoundTrip(e, wordBase);
    result := new BigInt(1);
    assert words[0..] == words;
    for i := 0 to |words|
      invariant fresh(result) && exponent.v == old(exponent.v) && 0 <= result.v < m
      invariant Cong(result.v * Pow(base.v, ValueOf(words[i..], wordBase)), Pow(b, e), m)
      invariant Cong(base.v, Pow(b, Pow(2, wordBits * i)), m)
      invariant if i == 0 then base.v == b else 0 <= base.v < m
    {
      ghost var above := ValueOf(words[i + 1..], wordBase);
      UnusedWords(words, i, wordBits);
      ExpWord(result, base, words[i], wordBits, above, b, wordBits * i);
      assert wordBits * i + wordBits == wordBits * (i + 1);
    }
    SmallPowers(base.v);
    NoWords(words, wordBase);
    Reduced(result.v, Pow(b, e), m);
    if |words| > 0 {
      Reduced(base.v, Pow(b, Pow(2, wordBits * |words|)), m);
    }
  }

  lemma SmallPowers(b: int)
    ensures Pow(b, 0) == 1 && Pow(b, Pow(2, 0)) == b
  {
  }

  lemma UnusedWords(words: seq<nat>, i: nat, wordBits: nat)
    requires i < |words|
    ensures var wordBase := Pow(2, wordBits);
            Unused(words[i], ValueOf(words[i + 1..], wordBase), wordBits) == ValueOf(words[i..], wordBase)
  {
  }

  lemma NoWords(words: seq<nat>, wordBase: nat)
    ensures ValueOf(words[|words|..], wordBase) == 0
  {
  }

  lemma Reduced(x: int, y: int, m: int)
    requires m > 0 && 0 <= x < m && Cong(x, y, m)
    ensures x == y % m
  {
  }

  /** What the comment promises: the arguments are left alone. */
  method ExpOnCopy(base: BigInt, exponent: BigInt, wordBits: nat) returns (result: BigInt)
    requires IsWordBits(wordBits)
    ensures fresh(result) && result.v == Pow(base.v, Abs(exponent.v)) % Top()
  {
    var copy := new BigInt(base.v);
    result := ExpAsWritten(copy, exponent, wordBits);
  }

  // ---------- when the base survives ----------

  /** 1 + b + ... + b^(n-1) */
  function Geometric(b: int, n: nat): int {
    if n == 0 then 0 else 1 + b * Geometric(b, n - 1)
  }

  lemma {:induction false} GeometricSum(b: int, n: nat)
    ensures Pow(b, n) - 1 == (b - 1) * Geometric(b, n)
  {
    if n > 0 {
      GeometricSum(b, n - 1);
      SumStep(b, Pow(b, n - 1), Geometric(b, n - 1));
    }
  }

  lemma SumStep(b: int, p: int, g: int)
    requires p - 1 == (b - 1) * g
    ensures b * p - 1 == (b - 1) * (1 + b * g)
  {
  }

  lemma {:induction false} GeometricParity(b: int, n: nat)
    requires b % 2 == 1
    ensures Geometric(b, n) % 2 == n % 2
  {
    if n > 0 {
      var g := Geometric(b, n - 1);
      GeometricParity(b, n - 1);
      Parity(b, g);
      Successor(b * g, n - 1);
    }
  }

  lemma Successor(x: int, n: nat)
    requires x % 2 == n % 2
    ensures (1 + x) % 2 == (n + 1) % 2
  {
  }

  lemma EvenBase(b: int, n: nat)
    requires b % 2 == 0 && n > 0
    ensures Pow(b, n) % 2 == 0
  {
    Parity(b, Pow(b, n - 1));
  }

  lemma Parity(x: int, y: int)
    ensures x % 2 == 0 ==> (x * y) % 2 == 0
    ensures x % 2 == 1 ==> (x * y) % 2 == y % 2
  {
    var a := x / 2;
    if x % 2 == 0 {
      assert x * y == 2 * (a * y) by { assert (2 * a) * y == 2 * (a * y); }
    } else {
      assert x * y == 2 * (a * y) + y by { assert (2 * a + 1) * y == 2 * (a * y) + y; }
    }
  }

  /** A power of two that divides x * y with y odd divides x. */
  lemma {:induction false} OddFactor(k: nat, x: int, y: int)
    requires y % 2 == 1 && (x * y) % Pow(2, k) == 0
    ensures x % Pow(2, k) == 0
  {
    if k > 0 {
      var p := Pow(2, k - 1);
      var q := (x * y) / (2 * p);
      assert x * y == (2 * p) * q;
      assert (2 * p) * q == 2 * (p * q);
      Parity(x, y);
      var h := x / 2;
      assert x == 2 * h;
      assert h * y == p * q by { assert (2 * h) * y == 2 * (h * y); }
      DivModUnique(h * y, q, 0, p);
      OddFactor(k - 1, h, y);
      assert x == (2 * p) * (h / p) by { assert h == p * (h / p); assert (2 * p) * (h / p) == 2 * (p * (h / p)); }
      DivModUnique(x, h / p, 0, 2 * p);
    }
  }

  /** A number below 2^k that some even power, truncated, leaves as it is, is 0 or 1. */
  lemma FixedByPower(b: int, n: nat, k: nat)
    requires n >= 2 && n % 2 == 0 && Pow(b, n) % Pow(2, k) == b
    ensures b == 0 || b == 1
  {
    hide Pow;
    var m, p := Pow(2, k), Pow(b, n);
    PowerTail(b, n);
    DivModUnique(p - b, p / m, 0, m);
    if b % 2 == 0 {
      EvenFixed(b, Pow(b, n - 1), n - 1, k);
    } else {
      OddFixed(b, Pow(b, n - 1), n - 1, k);
    }
  }

  lemma EvenFixed(b: int, p: int, n: nat, k: nat)
    requires b % 2 == 0 && n > 0 && p == Pow(b, n) && 0 <= b < Pow(2, k) && (b * (p - 1)) % Pow(2, k) == 0
    ensures b == 0
  {
    hide Pow;
    EvenBase(b, n);
    OddFactor(k, b, p - 1);
    DivModUnique(b, 0, b, Pow(2, k));
  }

  lemma OddFixed(b: int, p: int, n: nat, k: nat)
    requires b % 2 == 1 && n % 2 == 1 && p == Pow(b, n) && 0 <= b < Pow(2, k) && (b * (p - 1)) % Pow(2, k) == 0
    ensures b == 1
  {
    hide Pow;
    var g := Geometric(b, n);
    GeometricSum(b, n);
    GeometricParity(b, n);
    Parity(b, g);
    Regroup(b, g);
    OddFactor(k, b - 1, b * g);
    DivModUnique(b - 1, 0, b - 1, Pow(2, k));
  }

  lemma PowerTail(b: int, n: nat)
    requires n > 0
    ensures Pow(b, n) - b == b * (Pow(b, n - 1) - 1)
  {
  }

  lemma Regroup(b: int, g: int)
    ensures b * ((b - 1) * g) == (b - 1) * (b * g)
  {
  }

  /** Exp leaves its base alone exactly when the exponent is 0 or the base is 0 or 1. */
  lemma BaseUnchangedIff(b: int, x: int, wordBits: nat)
    requires IsWordBits(wordBits)
    ensures Squared(b, wordBits * WordCount(x, wordBits)) == b <==> x == 0 || b == 0 || b == 1
  {
    hide Pow;
    TwoPower(wordBits);
    TwoPower(256);
    var t := wordBits * WordCount(x, wordBits);
    if x != 0 {
      assert t > 0;
      EvenPower(t);
      if Squared(b, t) == b {
        FixedByPower(b, Pow(2, t), 256);
      }
      PowersOfZeroAndOne(Pow(2, t));
      Reduced(0, 0, Top());
      Reduced(1, 1, Top());
    }
  }

  lemma EvenPower(t: nat)
    requires t > 0
    ensures Pow(2, t) >= 2 && Pow(2, t) % 2 == 0
  {
  }

  lemma {:induction false} PowersOfZeroAndOne(n: nat)
    requires n > 0
    ensures Pow(0, n) == 0 && Pow(1, n) == 1
  {
    if n > 1 {
      PowersOfZeroAndOne(n - 1);
    } else {
      assert Pow(1, 0) == 1;
    }
  }
}
