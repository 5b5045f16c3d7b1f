/**
 crypto/mnemonic.go on every input: signs and nonsense in a message, words that are not in the list,
 and lists of any length.
 */
module MnemonicInputs {
  import opened Wrappers
  import opened Powers
  import opened ModArith
  import opened HexUtil
  import opened Mnemonic
  import opened MnemonicLaw

  /** Go's / and % fit together, and the remainder has the sign of the dividend. */
  lemma GoDivMod(a: int, n: nat)
    requires n > 0
    ensures a == n * GoDiv(a, n) + GoMod(a, n)
    ensures if a >= 0 then 0 <= GoMod(a, n) < n else GoMod(a, n) <= 0 < GoMod(a, n) + n
  {
    if a < 0 {
      DivMod(-a, n);
      assert n * -((-a) / n) == -(n * ((-a) / n));
    }
  }

  // ---------- numbers as text ----------

  /** Reading what %08x wrote gives the number back, whatever its sign; the text has 8 characters or more. */
  lemma FormatParses(x: int)
    ensures ParseInt(Format(x)) == x && |Format(x)| >= 8
    ensures |Format(x)| == 8 <==> -Pow(16, 7) < x < Pow(16, 8)
  {
    hide Digits, HexVal, IsHex, Pow;
    if x < 0 {
      PaddedParses(-x, 7);
      assert Format(x)[1..] == Pad(Digits(-x), 7);
    } else {
      PaddedParses(x, 8);
      var s := Pad(Digits(x), 8);
      HexFirst(s);
      ParseHex(s);
    }
    PowPositive();
  }

  /** Digits count with or without a sign before them. */
  lemma SignsParse(x: string)
    requires x != "" && IsHex(x)
    ensures ParseInt(x) == ParseInt("+" + x) == HexVal(x) && ParseInt("-" + x) == -(HexVal(x) as int)
  {
    hide HexVal;
    HexFirst(x);
    assert ("+" + x)[1..] == x && ("-" + x)[1..] == x;
  }

  /** Anything else is read as 0. */
  lemma NonsenseIsZero(x: string)
    requires !IsHex(x) && (x[0] in "+-" ==> !IsHex(x[1..]) || |x| == 1)
    ensures ParseInt(x) == 0 && ParseInt("") == 0
  {
  }

  lemma PowPositive()
    ensures Pow(16, 7) > 0 && Pow(16, 8) > 0
  {
  }

  lemma PaddedParses(x: nat, k: nat)
    requires k > 0
    ensures var s := Pad(Digits(x), k); |s| >= k && IsHex(s) && HexVal(s) == x && (|s| == k <==> x < Pow(16, k))
  {
    hide Digits, HexVal, IsHex, Pow;
    var s := Digits(x);
    DigitsValue(x);
    DigitsLength(x, k);
    if |s| < k {
      ZerosValue(k - |s|);
      HexValSplit(Zeros(k - |s|), s);
    }
  }

  lemma HexFirst(s: string)
    requires s != "" && IsHex(s)
    ensures s[0] != '-' && s[0] != '+'
  {
  }

  // ---------- encoding ----------

  /** The number read for the eight characters at i. */
  function GroupNumberAt(message: string, i: nat): int
    requires i + 8 <= |message|
  {
    ParseInt(message[i..i + 8])
  }

  /** A multiple of the cube of the number of words. */
  predicate CubeDivides(n: nat, u: nat)
    requires n > 0
  {
    CubePositive(n);
    u % (n * n * n) == 0
  }

  /** The three digits to the base n are all 0. */
  predicate NoDigits(u: nat, n: nat)
    requires n > 0
  {
    u % n == 0 && u / n % n == 0 && u / n / n % n == 0
  }

  lemma DivStep(u: nat, n: nat) returns (q: nat, r: nat)
    requires n > 0
    ensures q == u / n && r == u % n < n && u == n * q + r
  {
    q, r := u / n, u % n;
    DivMod(u, n);
  }

  /** A number below the cube and a multiple of it; the first is 0 when its three digits are. */
  lemma ThreeDigits(u: nat, n: nat) returns (top: nat, rest: nat)
    requires n > 0
    ensures rest < n * n * n && u == n * n * n * top + rest
    ensures NoDigits(u, n) <==> rest == 0
  {
    var q, r0 := DivStep(u, n);
    var p, r1 := DivStep(q, n);
    var t, r2 := DivStep(p, n);
    top := t;
    rest := BelowCube(n, r0, r1, r2);
    Unfold(n, u, q, p, top, r0, r1, r2);
  }

  lemma CubeDividesIff(u: nat, n: nat)
    requires n > 0
    ensures CubeDivides(n, u) <==> NoDigits(u, n)
  {
    hide NoDigits, CubeDivides;
    var top, rest := ThreeDigits(u, n);
    RestOfCube(n, u, top, rest);
  }

  lemma RestOfCube(n: nat, u: nat, top: nat, rest: nat)
    requires n > 0 && rest < n * n * n && u == n * n * n * top + rest
    ensures CubeDivides(n, u) <==> rest == 0
  {
    DivModUnique(u, top, rest, n * n * n);
  }

  lemma Unfold(n: nat, u: nat, q: nat, p: nat, top: nat, r0: nat, r1: nat, r2: nat)
    requires u == n * q + r0 && q == n * p + r1 && p == n * top + r2
    ensures u == n * n * n * top + (r0 + n * r1 + n * n * r2)
  {
    assert n * (n * (n * top + r2) + r1) + r0 == n * n * n * top + (r0 + n * r1 + n * n * r2);
  }

  /** A digit in front of a number below k. */
  lemma OneMoreDigit(n: nat, k: nat, a: nat, t: nat)
    requires a < n && t < k
    ensures a + n * t < n * k
    ensures a + n * t == 0 <==> a == 0 && t == 0
  {
    MulAtLeast(n, k - t);
    assert n * k == n * t + n * (k - t);
    if t > 0 {
      MulAtLeast(n, t);
    }
  }

  /** Three digits to the base n make a number below its cube, zero only if they all are. */
  lemma BelowCube(n: nat, a: nat, b: nat, c: nat) returns (x: nat)
    requires a < n && b < n && c < n
    ensures x == a + n * b + n * n * c && x < n * n * n
    ensures x == 0 <==> a == 0 && b == 0 && c == 0
  {
    OneMoreDigit(n, n, b, c);
    OneMoreDigit(n, n * n, a, b + n * c);
    assert n * (b + n * c) == n * b + n * n * c;
    assert n * (n * n) == n * n * n;
    x := a + n * (b + n * c);
  }

  lemma CubePositive(n: nat)
    requires n > 0
    ensures n * n * n > 0
  {
    var x := BelowCube(n, 0, 0, 0);
  }

  /**
   Eight characters can be encoded exactly when their number is not negative, or a multiple of the
   cube of the number of words; a negative one is then three times the first word.
   */
  lemma GroupEncodesIff(words: seq<string>, message: string, i: nat)
    ensures EncodeAt(words, message, i).Some? <==>
              && i + 8 <= |message| && words != []
              && var v := GroupNumberAt(message, i); v >= 0 || CubeDivides(|words|, -v)
    ensures EncodeAt(words, message, i).Some? && GroupNumberAt(message, i) < 0 ==>
              EncodeAt(words, message, i) == Some([words[0], words[0], words[0]])
  {
    hide ParseInt, GoMod, GoDiv, CubeDivides, NoDigits;
    if i + 8 <= |message| && words != [] {
      var v, n := GroupNumberAt(message, i), |words|;
      if v >= 0 {
        PositiveEncodes(v, n);
      } else {
        NegativeEncodes(-v, n, v);
        CubeDividesIff(-v, n);
      }
    }
  }

  lemma PositiveEncodes(v: nat, n: nat)
    requires n > 0
    ensures var w1 := GoMod(v, n); var w2 := GoMod(GoDiv(v, n) + w1, n); var w3 := GoMod(GoDiv(GoDiv(v, n), n) + w2, n);
            0 <= w1 < n && 0 <= w2 < n && 0 <= w3 < n
  {
    hide GoMod, GoDiv;
    var w1 := InRange(v, n);
    var w2 := InRange(GoDiv(v, n) + w1, n);
    var d := InRange(GoDiv(v, n), n);
    var w3 := InRange(GoDiv(GoDiv(v, n), n) + w2, n);
  }

  lemma InRange(x: int, n: nat) returns (w: nat)
    requires n > 0 && x >= 0
    ensures w == GoMod(x, n) < n && GoDiv(x, n) >= 0
  {
    GoOfNat(x, n);
    w := GoMod(x, n);
  }

  lemma NegativeEncodes(u: nat, n: nat, v: int)
    requires n > 0 && v == 0 - u
    ensures var w1 := GoMod(v, n); var w2 := GoMod(GoDiv(v, n) + w1, n); var w3 := GoMod(GoDiv(GoDiv(v, n), n) + w2, n);
            && w1 <= 0
            && (w1 == 0 ==> w2 <= 0) && (w1 == w2 == 0 ==> w3 <= 0)
            && (w1 == w2 == w3 == 0 <==> NoDigits(u, n))
  {
    hide GoMod, GoDiv;
    GoOfNegative(u, n, v);
    var q := u / n;
    GoOfNegative(q, n, GoDiv(v, n));
    GoOfNegative(q / n, n, GoDiv(GoDiv(v, n), n));
  }

  lemma GoOfNegative(u: nat, n: nat, v: int)
    requires n > 0 && v == 0 - u
    ensures GoMod(v, n) == 0 - u % n <= 0 && GoDiv(v, n) == 0 - u / n
  {
    if u == 0 {
      DivModUnique(0, 0, 0, n);
    }
  }

  /** Any message can be encoded exactly when every group that the loop gets to can. */
  lemma {:induction false} EncodesAnyIff(words: seq<string>, m: string, i: nat)
    requires |m| >= 8
    ensures EncodeFrom(words, m, i).Some? <==>
              forall j :: i <= j < |m| && (j - i) % (|m| / 8) == 0 ==> EncodeAt(words, m, j).Some?
    decreases |m| - i
  {
    hide EncodeAt;
    var step := |m| / 8;
    if i < |m| {
      EncodesAnyIff(words, m, i + step);
      ZeroMod(step);
      if forall j :: i <= j < |m| && (j - i) % step == 0 ==> EncodeAt(words, m, j).Some? {
        assert EncodeAt(words, m, i).Some?;
        forall j | i + step <= j < |m| && (j - (i + step)) % step == 0
          ensures EncodeAt(words, m, j).Some?
        {
          ModOf(j - (i + step), step);
          assert j - (i + step) + step == j - i;
        }
      } else {
        var j :| i <= j < |m| && (j - i) % step == 0 && EncodeAt(words, m, j).None?;
        if j != i {
          ModBack(j - i, step);
          assert j - i - step == j - (i + step);
        }
      }
    }
  }

  lemma ModOf(d: nat, step: nat)
    requires step > 0 && d % step == 0
    ensures (d + step) % step == 0
  {
    ModShift(d, 1, step);
    assert d + step * 1 == d + step;
  }

  /** The next multiple after 0 is the step itself. */
  lemma ModBack(d: nat, step: nat)
    requires step > 0 && d > 0 && d % step == 0
    ensures d >= step && (d - step) % step == 0
  {
    if d >= step {
      ModShift(d, -1, step);
      assert d + step * -1 == d - step;
    }
  }

  // ---------- decoding ----------

  /** A list can be decoded exactly when its words come in threes; whether they are known does not matter. */
  lemma {:induction false} DecodesIff(words: seq<string>, list: seq<string>, i: nat)
    requires i <= |list|
    ensures DecodeFrom(words, list, i).Some? <==> i == |list| || (words != [] && (|list| - i) % 3 == 0)
    decreases |list| - i
  {
    hide Format, Number;
    if i + 2 < |list| && words != [] {
      DecodesIff(words, list, i + 3);
    }
  }

  /** An unknown word counts as one before the first; differences are taken modulo the number of words. */
  lemma NumberOfAny(words: seq<string>, a: string, b: string, c: string)
    requires words != []
    ensures var n := |words|;
            var w1 := if a in words then Index(words, a) else -1;
            var w2 := if b in words then Index(words, b) else -1;
            var w3 := if c in words then Index(words, c) else -1;
            Number(words, a, b, c) == w1 + n * ((w2 - w1) % n) + n * n * ((w3 - w2) % n)
  {
    hide GoMod;
    var w1, w2, w3 := Index(words, a), Index(words, b), Index(words, c);
    NumberFrom(|words|, w1, w2, w3);
  }

  lemma NumberFrom(n: nat, w1: int, w2: int, w3: int)
    requires n > 0
    ensures var y, z := GoMod(w2 - w1, n), GoMod(w3 - w2, n);
            && (if y < 0 then y + n else y) == (w2 - w1) % n
            && (if z < 0 then z + n else z) == (w3 - w2) % n
  {
    hide GoMod;
    Repaired(w2 - w1, n);
    Repaired(w3 - w2, n);
  }
}
