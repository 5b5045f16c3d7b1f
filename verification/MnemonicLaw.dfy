/** When decoding undoes encoding in crypto/mnemonic.go. */
module MnemonicLaw {
  import opened Wrappers
  import opened Powers
  import opened ModArith
  import opened HexUtil
  import opened HexLaw
  import opened Mnemonic

  // ---------- one group ----------

  /** Adding n to a negative remainder makes Go's % Euclidean. */
  lemma Repaired(d: int, n: nat)
    requires n > 0
    ensures var z := GoMod(d, n); (if z < 0 then z + n else z) == d % n
  {
    if d < 0 {
      var q, r := (-d) / n, (-d) % n;
      assert -d == n * q + r;
      if r == 0 {
        assert d == n * (-q) + 0 by { assert n * (-q) == -(n * q); }
        DivModUnique(d, -q, 0, n);
      } else {
        assert d == n * (-q - 1) + (n - r) by { assert n * (-q - 1) == -(n * q) - n; }
        DivModUnique(d, -q - 1, n - r, n);
      }
    }
  }

  /** What the decoder makes of the number bit. */
  function Back(bit: nat, n: nat): nat
    requires n > 0
  {
    bit % n + n * ((bit / n) % n) + n * n * ((bit / n / n) % n)
  }

  lemma DivMod(x: nat, n: nat)
    requires n > 0
    ensures x == n * (x / n) + x % n && 0 <= x % n < n
  {
  }

  /** A group comes back exactly when it is below the cube of the number of words. */
  lemma GroupBackIff(bit: nat, n: nat)
    requires n > 0
    ensures Back(bit, n) == bit <==> bit < n * n * n
    ensures Back(bit, n) <= bit
  {
    var q := bit / n;
    var p := q / n;
    DivMod(bit, n);
    DivMod(q, n);
    DivMod(p, n);
    Expand(n, q, p, bit % n, q % n);
    CubeBound(bit, n, q, p);
    var top := p / n;
    assert p == n * top + p % n;
    assert n * n * p == n * n * (n * top) + n * n * (p % n);
    if top == 0 {
      assert p < n;
    } else {
      ProductPositive(n, top);
    }
  }

  lemma ProductPositive(n: nat, top: nat)
    requires n > 0 && top > 0
    ensures n * n * (n * top) > 0 && n * top >= n
  {
  }

  lemma Expand(n: nat, q: nat, p: nat, r0: nat, r1: nat)
    requires q == n * p + r1
    ensures n * q + r0 == n * n * p + n * r1 + r0
  {
  }

  lemma CubeBound(bit: nat, n: nat, q: nat, p: nat)
    requires n > 0 && q == bit / n && p == q / n
    ensures p < n <==> bit < n * n * n
  {
    DivLess(bit, n, n * n);
    DivLess(q, n, n);
    assert n * (n * n) == n * n * n;
  }

  lemma DivLess(x: nat, n: nat, k: nat)
    requires n > 0
    ensures x / n < k <==> x < n * k
  {
    DivMod(x, n);
    if x / n < k {
      assert n * k == n * (x / n) + n * (k - x / n);
      MulAtLeast(n, k - x / n);
    } else {
      assert n * (x / n) == n * k + n * (x / n - k);
      assert n * (x / n - k) >= 0;
    }
  }

  predicate Distinct(words: seq<string>) {
    forall i, j :: 0 <= i < j < |words| ==> words[i] != words[j]
  }

  lemma IndexOfWord(words: seq<string>, w: nat)
    requires Distinct(words) && w < |words|
    ensures Index(words, words[w]) == w
  {
  }

  /** Sum of differences: the second and third word give back the quotients' remainders. */
  lemma Difference(a: int, w: int, n: nat)
    requires n > 0
    ensures ((a + w) % n - w) % n == a % n
  {
    CongMod(a + w, n);
    CongSub((a + w) % n, a + w, w, w, n);
  }

  /** The three places of the word list that stand for bit. */
  function Places(bit: nat, n: nat): (nat, nat, nat)
    requires n > 0
  {
    var w1 := bit % n;
    var w2 := (bit / n + w1) % n;
    (w1, w2, (bit / n / n + w2) % n)
  }

  /** On natural numbers Go's operators are Dafny's. */
  lemma GoOfNat(x: nat, n: nat)
    requires n > 0
    ensures GoMod(x, n) == x % n && GoDiv(x, n) == x / n && 0 <= x % n < n && x / n >= 0
  {
  }

  lemma ParseHex(x: string)
    requires x != "" && IsHex(x)
    ensures ParseInt(x) == HexVal(x)
  {
  }

  lemma EncodesPlaces(words: seq<string>, message: string, i: nat)
    requires words != [] && i + 8 <= |message| && IsHex(message[i..i + 8])
    ensures var (w1, w2, w3) := Places(HexVal(message[i..i + 8]), |words|);
            w1 < |words| && w2 < |words| && w3 < |words|
            && EncodeAt(words, message, i) == Some([words[w1], words[w2], words[w3]])
  {
    hide HexVal, ParseInt, GoMod, GoDiv, EncodeAt;
    var x, n := message[i..i + 8], |words|;
    ParseHex(x);
    var bit: nat := HexVal(x);
    var (w1, w2, w3) := Places(bit, n);
    GoOfNat(bit, n);
    GoOfNat(bit / n, n);
    GoOfNat(bit / n + w1, n);
    GoOfNat(bit / n / n + w2, n);
    EncodeAtIs(words, message, i, bit, w1, w2, w3);
  }

  lemma EncodeAtIs(words: seq<string>, message: string, i: nat, bit: int, w1: nat, w2: nat, w3: nat)
    requires i + 8 <= |message| && ParseInt(message[i..i + 8]) == bit && w1 < |words| && w2 < |words| && w3 < |words|
    requires var n := |words|;
             && GoMod(bit, n) == w1 && GoMod(GoDiv(bit, n) + w1, n) == w2
             && GoMod(GoDiv(GoDiv(bit, n), n) + w2, n) == w3
    ensures EncodeAt(words, message, i) == Some([words[w1], words[w2], words[w3]])
  {
  }

  lemma NumberOfPlaces(words: seq<string>, bit: nat)
    requires words != [] && Distinct(words)
    requires var (w1, w2, w3) := Places(bit, |words|); w1 < |words| && w2 < |words| && w3 < |words|
    ensures var (w1, w2, w3) := Places(bit, |words|);
            Number(words, words[w1], words[w2], words[w3]) == Back(bit, |words|)
  {
    hide Index, GoMod;
    var n := |words|;
    var (w1, w2, w3) := Places(bit, n);
    IndexOfWord(words, w1);
    IndexOfWord(words, w2);
    IndexOfWord(words, w3);
    Repaired(w2 - w1, n);
    Repaired(w3 - w2, n);
    Difference(bit / n, w1, n);
    Difference(bit / n / n, w2, n);
  }

  lemma GroupNumber(words: seq<string>, message: string, i: nat)
    requires words != [] && Distinct(words) && i + 8 <= |message| && IsHex(message[i..i + 8])
    ensures var r := EncodeAt(words, message, i);
            && r.Some? && |r.value| == 3
            && Number(words, r.value[0], r.value[1], r.value[2]) == Back(HexVal(message[i..i + 8]), |words|)
  {
    hide EncodeAt, Number, Back, HexVal, Places;
    EncodesPlaces(words, message, i);
    NumberOfPlaces(words, HexVal(message[i..i + 8]));
  }

  // ---------- the text of a group ----------

  lemma {:induction false} ZerosValue(k: nat)
    ensures IsHex(Zeros(k)) && HexVal(Zeros(k)) == 0
  {
    if k > 0 {
      ZerosValue(k - 1);
      assert Zeros(k)[..k - 1] == Zeros(k - 1);
    }
  }

  /** The padded digits of a number read as that number. */
  lemma FormatValue(x: nat)
    requires x < Pow(16, 8)
    ensures |Format(x)| == 8 && IsHex(Format(x)) && HexVal(Format(x)) == x
  {
    hide Pow, Digits, HexVal, IsHex;
    var s := Digits(x);
    DigitsValue(x);
    DigitsLength(x, 8);
    if |s| < 8 {
      ZerosValue(8 - |s|);
      HexValSplit(Zeros(8 - |s|), s);
    }
  }

  /** Padding the digits of a digit string's value to its length gives it back in lower case. */
  lemma {:induction false} PadLower(s: string)
    requires IsHex(s) && s != ""
    ensures Pad(Digits(HexVal(s)), |s|) == Lower(s)
    decreases |s|
  {
    hide Nibble, Digit, Pad, Digits, HexVal;
    var n := |s| - 1;
    LastDigit(s);
    var d := Nibble(s[n]).value;
    if n == 0 {
      PadDigit(d, 0);
      HexValEmpty();
      assert s[..0] == "" && Lower(s[..0]) == "";
    } else {
      PadLower(s[..n]);
      PadAppend(HexVal(s[..n]), d, n);
    }
  }

  lemma LastDigit(s: string)
    requires IsHex(s) && s != ""
    ensures var n := |s| - 1;
            var d := Nibble(s[n]).value;
            IsHex(s[..n]) && d < 16 && HexVal(s) == HexVal(s[..n]) * 16 + d && Lower(s) == Lower(s[..n]) + [Digit(d)]
  {
    hide Nibble, Digit, LowerChar, Lower, HexVal;
    LowerDigit(s[|s| - 1]);
    LowerAppend(s);
    HexValLast(s);
  }

  lemma HexValLast(s: string)
    requires IsHex(s) && s != ""
    ensures IsHex(s[..|s| - 1]) && HexVal(s) == HexVal(s[..|s| - 1]) * 16 + Nibble(s[|s| - 1]).value
  {
  }

  lemma LowerAppend(s: string)
    requires s != ""
    ensures Lower(s) == Lower(s[..|s| - 1]) + [LowerChar(s[|s| - 1])]
  {
  }

  lemma PadDigit(d: nat, n: nat)
    requires d < 16
    ensures Pad(Digits(d), n + 1) == Zeros(n) + [Digit(d)]
  {
  }

  /** One more digit at the end of padded digits. */
  lemma PadAppend(v: nat, d: nat, n: nat)
    requires d < 16 && n > 0 && |Pad(Digits(v), n)| == n
    ensures Pad(Digits(v * 16 + d), n + 1) == Pad(Digits(v), n) + [Digit(d)]
  {
    hide Digit;
    assert (v * 16 + d) / 16 == v && (v * 16 + d) % 16 == d;
    if v == 0 {
      PadDigit(d, n);
      PadDigit(0, n - 1);
      DigitNibble(0);
      assert Digit(0) == '0' by { ZeroDigit(); }
      assert Zeros(n) == Zeros(n - 1) + ['0'];
    } else {
      var s := Digits(v);
      assert Digits(v * 16 + d) == s + [Digit(d)];
    }
  }

  lemma ZeroDigit()
    ensures Digit(0) == '0'
  {
  }

  lemma GroupTextIff(x: string, n: nat)
    requires n > 0 && |x| == 8 && IsHex(x)
    ensures |Format(Back(HexVal(x), n))| == 8
    ensures Format(Back(HexVal(x), n)) == Lower(x) <==> HexVal(x) < n * n * n
  {
    hide Pow, Format, Back;
    var bit := HexVal(x);
    var back := Back(bit, n);
    GroupBackIff(bit, n);
    HexValBound(x);
    FormatValue(back);
    LowerHex(x);
    FormatIsPad(bit);
    PadLower(x);
  }

  lemma FormatIsPad(x: nat)
    ensures Format(x) == Pad(Digits(x), 8)
  {
  }

  // ---------- whole messages ----------

  /** The number of the eight digits at i. */
  function GroupVal(m: string, i: nat): nat
    requires IsHex(m) && i + 8 <= |m|
  {
    HexVal(m[i..i + 8])
  }

  predicate GroupsFit(m: string, n: nat, i: nat)
    requires IsHex(m)
  {
    forall j :: i <= j <= |m| - 8 && j % 8 == 0 ==> GroupVal(m, j) < n * n * n
  }

  /** Encoding and then decoding. */
  function RoundTrip(words: seq<string>, m: string): Option<string> {
    match EncodeFrom(words, m, 0)
    case None => None
    case Some(list) => DecodeFrom(words, list, 0)
  }

  lemma {:induction false} DecodeShift(words: seq<string>, a: seq<string>, list: seq<string>, i: nat)
    ensures DecodeFrom(words, a + list, |a| + i) == DecodeFrom(words, list, i)
    decreases |list| - i
  {
    hide Format, Number;
    if i + 2 < |list| {
      assert (a + list)[|a| + i] == list[i] && (a + list)[|a| + i + 1] == list[i + 1] && (a + list)[|a| + i + 2] == list[i + 2];
      DecodeShift(words, a, list, i + 3);
      assert |a| + i + 3 == |a| + (i + 3);
    }
  }

  /** A message whose groups are all inside it: 8 groups, step apart, and 64 digits come back. */
  lemma {:induction false} Runs(words: seq<string>, m: string, i: nat)
    requires words != [] && Distinct(words) && IsHex(m) && |m| % 8 == 0 && |m| >= 64
    requires i <= |m| && i % (|m| / 8) == 0
    ensures var r := EncodeFrom(words, m, i);
            && r.Some? && DecodeFrom(words, r.value, 0).Some?
            && |DecodeFrom(words, r.value, 0).value| * (|m| / 8) == 8 * (|m| - i)
            && (|m| == 64 ==> (DecodeFrom(words, r.value, 0).value == Lower(m[i..]) <==> GroupsFit(m, |words|, i)))
    decreases |m| - i
  {
    hide Format, Number, EncodeAt, Back, Lower, DecodeFrom, GroupsFit, HexVal;
    var step := |m| / 8;
    if i < |m| {
      NextGroup(|m|, i);
      Runs(words, m, i + step);
      GroupNumber(words, m, i);
      GroupTextIff(m[i..i + 8], |words|);
      var ws, more := EncodeAt(words, m, i).value, EncodeFrom(words, m, i + step).value;
      var x, text := Format(Number(words, ws[0], ws[1], ws[2])), DecodeFrom(words, more, 0).value;
      Prepend(words, ws, more);
      assert |x + text| * step == 8 * step + |text| * step;
      if |m| == 64 {
        FirstGroup(m, |words|, i, x, text);
      }
    } else {
      NoGroups(words, m, |words|);
    }
  }

  lemma Prepend(words: seq<string>, ws: seq<string>, more: seq<string>)
    requires words != [] && |ws| == 3 && DecodeFrom(words, more, 0).Some?
    ensures DecodeFrom(words, ws + more, 0)
         == Some(Format(Number(words, ws[0], ws[1], ws[2])) + DecodeFrom(words, more, 0).value)
  {
    hide Format, Number;
    var list := ws + more;
    assert list[0] == ws[0] && list[1] == ws[1] && list[2] == ws[2];
    DecodeShift(words, ws, more, 0);
  }

  lemma NoGroups(words: seq<string>, m: string, n: nat)
    requires IsHex(m)
    ensures EncodeFrom(words, m, |m|) == Some([]) && DecodeFrom(words, [], 0) == Some("")
    ensures Lower(m[|m|..]) == "" && GroupsFit(m, n, |m|)
  {
  }

  lemma NextGroup(len: nat, i: nat)
    requires len % 8 == 0 && len >= 64 && i < len && i % (len / 8) == 0
    ensures i + len / 8 <= len && (i + len / 8) % (len / 8) == 0 && i + 8 <= len
  {
    var step := len / 8;
    var k := i / step;
    assert i == step * k;
    assert len == step * 8;
    DivLess(i, step, 8);
    assert step * (k + 1) == step * k + step;
    assert step * 8 == step * (k + 1) + step * (7 - k);
    assert step * (7 - k) >= 0;
    DivModUnique(i + step, k + 1, 0, step);
  }

  lemma FirstGroup(m: string, n: nat, i: nat, x: string, text: string)
    requires |m| == 64 && IsHex(m) && i + 8 <= 64 && i % 8 == 0 && |x| == 8 && |text| == 56 - i
    requires x == Lower(m[i..i + 8]) <==> GroupVal(m, i) < n * n * n
    requires text == Lower(m[i + 8..]) <==> GroupsFit(m, n, i + 8)
    ensures x + text == Lower(m[i..]) <==> GroupsFit(m, n, i)
  {
    var whole := Lower(m[i..]);
    assert whole[..8] == Lower(m[i..i + 8]) && whole[8..] == Lower(m[i + 8..]);
    assert whole == whole[..8] + whole[8..];
    assert (x + text)[..8] == x && (x + text)[8..] == text;
    assert GroupsFit(m, n, i) ==> GroupVal(m, i) < n * n * n;
    forall j | i <= j <= 56 && j % 8 == 0
      ensures j == i || j >= i + 8
    {
    }
  }

  /** A group that reaches past the end, at a place the loop gets to. */
  lemma {:induction false} Stuck(words: seq<string>, m: string, i: nat, bad: nat)
    requires |m| >= 8 && i <= bad < |m| < bad + 8 && (bad - i) % (|m| / 8) == 0
    ensures EncodeFrom(words, m, i) == None
    decreases |m| - i
  {
    hide EncodeAt;
    var step := |m| / 8;
    if i == bad {
      PastTheEnd(words, m, i);
    } else {
      var k := (bad - i) / step;
      assert bad - i == step * k;
      assert k >= 1;
      MulAtLeast(step, k);
      assert step * (k - 1) == step * k - step;
      DivModUnique(bad - (i + step), k - 1, 0, step);
      Stuck(words, m, i + step, bad);
    }
  }

  lemma PastTheEnd(words: seq<string>, m: string, i: nat)
    requires i < |m| < i + 8
    ensures EncodeFrom(words, m, i) == None
  {
  }

  /** Encoding a hex message succeeds exactly for no digits, and for 64 or more in a multiple of 8. */
  lemma EncodesIff(words: seq<string>, m: string)
    requires words != [] && Distinct(words) && IsHex(m)
    ensures EncodeFrom(words, m, 0).Some? <==> m == "" || (|m| % 8 == 0 && |m| >= 64)
  {
    var step := |m| / 8;
    if m == "" {
    } else if |m| < 8 {
      PastTheEnd(words, m, 0);
    } else if |m| % 8 != 0 {
      DivModUnique(8 * step, 8, 0, step);
      Stuck(words, m, 0, 8 * step);
    } else if |m| < 64 {
      DivModUnique(7 * step, 7, 0, step);
      Stuck(words, m, 0, 7 * step);
    } else {
      ZeroMod(step);
      Runs(words, m, 0);
    }
  }

  lemma ZeroMod(step: nat)
    requires step > 0
    ensures 0 % step == 0
  {
  }

  /** A hex message comes back exactly when it is empty, or 64 digits in groups below the cube. */
  lemma RoundTripIff(words: seq<string>, m: string)
    requires words != [] && Distinct(words) && IsHex(m)
    ensures RoundTrip(words, m) == Some(Lower(m)) <==> m == "" || (|m| == 64 && GroupsFit(m, |words|, 0))
  {
    hide EncodeFrom, DecodeFrom, GroupsFit;
    EncodesIff(words, m);
    if m == "" {
      NoGroups(words, m, |words|);
      assert m[|m|..] == m;
    } else if |m| % 8 == 0 && |m| >= 64 {
      ZeroMod(|m| / 8);
      Runs(words, m, 0);
      assert m[0..] == m;
      if |m| > 64 {
        var text := DecodeFrom(words, EncodeFrom(words, m, 0).value, 0).value;
        LengthDiffers(|text|, |m|);
      }
    }
  }

  lemma LengthDiffers(t: nat, len: nat)
    requires len % 8 == 0 && len > 64 && t * (len / 8) == 8 * len
    ensures t != len
  {
    var step := len / 8;
    DivModUnique(t * step, t, 0, step);
    DivModUnique(64 * step, 64, 0, step);
  }

  /** Every message of 64 hex digits comes back exactly when n^3 covers all groups, 2^32 of them. */
  lemma RoundTripForAllIff(words: seq<string>)
    requires words != [] && Distinct(words)
    ensures (forall m :: |m| == 64 && IsHex(m) ==> RoundTrip(words, m) == Some(Lower(m)))
            <==> |words| * |words| * |words| >= Pow(16, 8)
  {
    hide RoundTrip, Lower, HexVal, Format, Pow;
    var n := |words|;
    var cube := n * n * n;
    if cube >= Pow(16, 8) {
      forall m | |m| == 64 && IsHex(m)
        ensures RoundTrip(words, m) == Some(Lower(m))
      {
        RoundTripIff(words, m);
        AllGroupsFit(m, n);
      }
    } else {
      var m := Format(cube) + Zeros(56);
      FormatValue(cube);
      ZerosValue(56);
      assert m[0..0 + 8] == Format(cube);
      assert IsHex(m) && |m| == 64;
      assert GroupVal(m, 0) == cube;
      RoundTripIff(words, m);
      assert !GroupsFit(m, n, 0);
    }
  }

  lemma AllGroupsFit(m: string, n: nat)
    requires IsHex(m) && n * n * n >= Pow(16, 8)
    ensures GroupsFit(m, n, 0)
  {
    forall j | 0 <= j <= |m| - 8 && j % 8 == 0
      ensures GroupVal(m, j) < n * n * n
    {
      HexValBound(m[j..j + 8]);
    }
  }
}
