/**
 common/hexutil: hex quantities. DecodeBig packs the digits into machine words, the low word
 first; a word has nibbles hex digits, 16 or 8, and its arithmetic wraps around.
 */
module HexUtil {
  import opened Wrappers
  import opened Powers

  datatype Error = ErrEmptyNumber | ErrMissingPrefix | ErrLeadingZero | ErrBig256Range | ErrSyntax

  // ---------- digits ----------

  /** decodeNibble; None is badNibble. */
  function Nibble(c: char): Option<nat> {
    if '0' <= c <= '9' then Some(c as int - '0' as int)
    else if 'A' <= c <= 'F' then Some(c as int - 'A' as int + 10)
    else if 'a' <= c <= 'f' then Some(c as int - 'a' as int + 10)
    else None
  }

  predicate IsHex(s: string) {
    forall i :: 0 <= i < |s| ==> Nibble(s[i]).Some?
  }

  /** The number a digit string denotes. */
  function HexVal(s: string): nat
    requires IsHex(s)
  {
    if s == "" then 0 else HexVal(s[..|s| - 1]) * 16 + Nibble(s[|s| - 1]).value
  }

  function Digit(n: nat): char
    requires n < 16
  {
    "0123456789abcdef"[n]
  }

  /** The lower-case digits of a number, without leading zeros. */
  function Digits(n: nat): (s: string)
    ensures s != ""
  {
    if n < 16 then [Digit(n)] else Digits(n / 16) + [Digit(n % 16)]
  }

  lemma {:induction false} HexValSplit(a: string, b: string)
    requires IsHex(a) && IsHex(b)
    ensures IsHex(a + b) && HexVal(a + b) == HexVal(a) * Pow(16, |b|) + HexVal(b)
    decreases |b|
  {
    if b == "" {
      assert a + b == a;
    } else {
      var n := |b| - 1;
      HexValSplit(a, b[..n]);
      assert (a + b)[..|a + b| - 1] == a + b[..n] && (a + b)[|a + b| - 1] == b[n];
      Horner(HexVal(a), Pow(16, n), HexVal(b[..n]), Nibble(b[n]).value);
    }
  }

  lemma Horner(a: nat, p: nat, b: nat, d: nat)
    ensures (a * p + b) * 16 + d == a * (16 * p) + (b * 16 + d)
  {
  }

  lemma {:induction false} HexValBound(s: string)
    requires IsHex(s)
    ensures HexVal(s) < Pow(16, |s|)
  {
    if s != "" {
      HexValBound(s[..|s| - 1]);
    }
  }

  // ---------- checkNumber ----------

  predicate Has0xPrefix(s: string) {
    |s| >= 2 && s[0] == '0' && (s[1] == 'x' || s[1] == 'X')
  }

  function CheckNumber(input: string): Result<string, Error> {
    if |input| == 0 then Err(ErrEmptyNumber)
    else if !Has0xPrefix(input) then Err(ErrMissingPrefix)
    else
      var raw := input[2..];
      if |raw| == 0 then Err(ErrEmptyNumber)
      else if |raw| > 1 && raw[0] == '0' then Err(ErrLeadingZero)
      else Ok(raw)
  }

  /** checkNumberText lets the empty string through. */
  function CheckNumberText(input: string): Result<string, Error> {
    if |input| == 0 then Ok("") else CheckNumber(input)
  }

  /** What a checked digit string decodes to. */
  function ValueOf(checked: Result<string, Error>): Result<nat, Error> {
    match checked
    case Err(e) => Err(e)
    case Ok(raw) =>
      if |raw| > 64 then Err(ErrBig256Range) else if IsHex(raw) then Ok(HexVal(raw)) else Err(ErrSyntax)
  }

  // ---------- the word loop ----------

  /** The number that words denote, low word first: big.Int's SetBits. */
  function WordsValue(ws: seq<nat>, nibbles: nat): nat {
    if ws == [] then 0 else WordsValue(ws[..|ws| - 1], nibbles) + ws[|ws| - 1] * Pow(16, nibbles * (|ws| - 1))
  }

  /** Arithmetic on a machine word. */
  function Wrap(x: nat, m: nat): (r: nat)
    requires m > 0
    ensures x < m ==> r == x
  {
    if x < m then x else x % m
  }

  /** One word: the digits raw[start..end]. No multiplication or addition wraps around. */
  method PackWord(raw: string, start: nat, end: nat, nibbles: nat, words: array<nat>, i: nat) returns (ok: bool)
    requires start <= end <= |raw| && end - start <= nibbles && i < words.Length && words[i] == 0
    modifies words
    ensures ok <==> IsHex(raw[start..end])
    ensures ok ==> words[i] == HexVal(raw[start..end]) < Pow(16, nibbles)
    ensures forall j :: 0 <= j < words.Length && j != i ==> words[j] == old(words[j])
  {
    hide Pow;
    var wrap := Pow(16, nibbles);
    var ri := start;
    while ri < end
      invariant start <= ri <= end && IsHex(raw[start..ri]) && words[i] == HexVal(raw[start..ri])
      invariant forall j :: 0 <= j < words.Length && j != i ==> words[j] == old(words[j])
    {
      var nib := Nibble(raw[ri]);
      if nib.None? {
        assert raw[start..end][ri - start] == raw[ri];
        return false;
      }
      NextDigit(raw, start, ri, nibbles);
      words[i] := Wrap(words[i] * 16, wrap);
      words[i] := Wrap(words[i] + nib.value, wrap);
      ri := ri + 1;
    }
    HexValBound(raw[start..end]);
    PowGrows(16, end - start, nibbles);
    return true;
  }

  lemma NextDigit(raw: string, start: nat, ri: nat, nibbles: nat)
    requires start <= ri < |raw| && ri + 1 - start <= nibbles && IsHex(raw[start..ri]) && Nibble(raw[ri]).Some?
    ensures IsHex(raw[start..ri + 1])
    ensures HexVal(raw[start..ri + 1]) == HexVal(raw[start..ri]) * 16 + Nibble(raw[ri]).value < Pow(16, nibbles)
  {
    assert raw[start..ri + 1][..ri - start] == raw[start..ri];
    HexValBound(raw[start..ri + 1]);
    PowGrows(16, ri + 1 - start, nibbles);
  }

  /** Word i's weight is 16 to the number of digits after it. */
  lemma NextWord(ws: seq<nat>, w: nat, raw: string, start: nat, end: nat, nibbles: nat)
    requires start <= end <= |raw| && IsHex(raw[start..end]) && IsHex(raw[end..])
    requires WordsValue(ws, nibbles) == HexVal(raw[end..]) && w == HexVal(raw[start..end])
    requires |raw| - end == nibbles * |ws|
    ensures IsHex(raw[start..]) && WordsValue(ws + [w], nibbles) == HexVal(raw[start..])
  {
    HexValSplit(raw[start..end], raw[end..]);
    assert raw[start..end] + raw[end..] == raw[start..];
    assert (ws + [w])[..|ws|] == ws;
  }

  /** The loop shared, word for word, by DecodeBig and Big.UnmarshalText. */
  method PackWords(raw: string, nibbles: nat) returns (r: Option<seq<nat>>)
    requires nibbles > 0
    ensures r.Some? <==> IsHex(raw)
    ensures r.Some? ==> WordsValue(r.value, nibbles) == HexVal(raw) && |r.value| == |raw| / nibbles + 1
    ensures r.Some? ==> forall i :: 0 <= i < |r.value| ==> r.value[i] < Pow(16, nibbles)
  {
    hide Pow, HexVal, WordsValue;
    var n := |raw| / nibbles;
    var words := new nat[n + 1](i => 0);
    var end: nat := |raw|;
    EmptyValues(raw, nibbles);
    for i := 0 to n + 1
      invariant end <= |raw| && (i <= n ==> |raw| - end == nibbles * i) && (i == n + 1 ==> end == 0)
      invariant IsHex(raw[end..]) && WordsValue(words[..i], nibbles) == HexVal(raw[end..])
      invariant forall j :: 0 <= j < i ==> words[j] < Pow(16, nibbles)
      invariant forall j :: i <= j <= n ==> words[j] == 0
    {
      WordPlace(|raw|, nibbles, i);
      var start: int := end - nibbles;
      if start < 0 {
        start := 0;
      }
      ghost var before := words[..i];
      var ok := PackWord(raw, start, end, nibbles, words, i);
      if !ok {
        assert exists k :: 0 <= k < end - start && Nibble(raw[start..end][k]).None?;
        return None;
      }
      NextWord(before, words[i], raw, start, end, nibbles);
      assert words[..i + 1] == before + [words[i]];
      end := start;
    }
    assert raw[0..] == raw && words[..n + 1] == words[..];
    return Some(words[..]);
  }

  lemma EmptyValues(raw: string, nibbles: nat)
    ensures WordsValue([], nibbles) == 0 && HexVal(raw[|raw|..]) == 0
  {
  }

  /** Before word i come nibbles * i digits; the last word has fewer than nibbles. */
  lemma WordPlace(n: nat, nibbles: nat, i: nat)
    requires nibbles > 0 && i <= n / nibbles
    ensures i < n / nibbles ==> nibbles * i + nibbles == nibbles * (i + 1) <= n
    ensures i == n / nibbles ==> nibbles * i <= n < nibbles * i + nibbles
  {
    var q := n / nibbles;
    assert n == nibbles * q + n % nibbles;
    if i < q {
      assert nibbles * q == nibbles * (i + 1) + nibbles * (q - i - 1);
    }
  }

  /** DecodeBig */
  method DecodeBig(input: string, nibbles: nat) returns (r: Result<nat, Error>)
    requires nibbles == 16 || nibbles == 8
    ensures r == ValueOf(CheckNumber(input))
  {
    var checked := CheckNumber(input);
    if checked.Err? {
      return Err(checked.error);
    }
    var raw := checked.value;
    if |raw| > 64 {
      return Err(ErrBig256Range);
    }
    var words := PackWords(raw, nibbles);
    if words.None? {
      return Err(ErrSyntax);
    }
    return Ok(WordsValue(words.value, nibbles));
  }

  class Big {
    var v: int

    constructor ()
      ensures v == 0
    {
      v := 0;
    }

    /** UnmarshalText; the receiver changes only on success. */
    method UnmarshalText(input: string, nibbles: nat) returns (r: Option<Error>)
      requires nibbles == 16 || nibbles == 8
      modifies this
      ensures match ValueOf(CheckNumberText(input))
              case Ok(x) => r == None && v == x
              case Err(e) => r == Some(e) && v == old(v)
    {
      var checked := CheckNumberText(input);
      if checked.Err? {
        return Some(checked.error);
      }
      var raw := checked.value;
      if |raw| > 64 {
        return Some(ErrBig256Range);
      }
      var words := PackWords(raw, nibbles);
      if words.None? {
        return Some(ErrSyntax);
      }
      v := WordsValue(words.value, nibbles);
      return None;
    }
  }

  /** The two agree on every input but the empty one, which is an error for DecodeBig and 0 for UnmarshalText. */
  lemma UnmarshalAgreesIff(input: string)
    ensures ValueOf(CheckNumberText(input)) == ValueOf(CheckNumber(input)) <==> input != ""
    ensures ValueOf(CheckNumberText("")) == Ok(0) && ValueOf(CheckNumber("")) == Err(ErrEmptyNumber)
  {
  }

  // ---------- encoding ----------

  /** big.Int's Text(16). */
  function Text16(x: int): (s: string)
    ensures s != ""
  {
    if x < 0 then "-" + Digits(-x) else Digits(x)
  }

  /** EncodeBig; the digits of a negative number follow Text's minus sign. */
  function EncodeBig(x: int): string {
    if x == 0 then "0x0" else if x > 0 then "0x" + Text16(x) else "-0x" + Text16(x)[1..]
  }

  /** A negative number is written as its absolute value behind a minus sign. */
  lemma EncodeNegative(x: int)
    requires x < 0
    ensures EncodeBig(x) == "-" + EncodeBig(-x)
  {
    assert Text16(x)[1..] == Digits(-x);
  }

  lemma DigitNibble(n: nat)
    requires n < 16
    ensures Nibble(Digit(n)) == Some(n) && (Digit(n) == '0' <==> n == 0)
  {
  }

  lemma HexValAppend(s: string, c: char)
    requires IsHex(s) && Nibble(c).Some?
    ensures IsHex(s + [c]) && HexVal(s + [c]) == HexVal(s) * 16 + Nibble(c).value
  {
  }

  lemma {:induction false} DigitsValue(n: nat)
    ensures IsHex(Digits(n)) && HexVal(Digits(n)) == n
    ensures Digits(n)[0] == '0' <==> n == 0
    ensures n == 0 ==> Digits(n) == "0"
  {
    hide Nibble, Digit, HexVal;
    DigitNibble(n % 16);
    if n < 16 {
      HexValEmpty();
      HexValAppend("", Digit(n));
      assert "" + [Digit(n)] == [Digit(n)];
      DigitNibble(0);
    } else {
      DigitsValue(n / 16);
      HexValAppend(Digits(n / 16), Digit(n % 16));
    }
  }

  lemma HexValEmpty()
    ensures HexVal("") == 0
  {
  }

  lemma {:induction false} DigitsLength(n: nat, k: nat)
    requires k > 0
    ensures |Digits(n)| <= k <==> n < Pow(16, k)
    decreases k
  {
    if n >= 16 {
      if k > 1 {
        DigitsLength(n / 16, k - 1);
      } else {
        assert |Digits(n)| == |Digits(n / 16)| + 1;
      }
    } else {
      PowGrows(16, 1, k);
    }
  }

  /** DecodeBig undoes EncodeBig exactly on the numbers of 256 bits. */
  lemma DecodeEncodeIff(x: int)
    ensures ValueOf(CheckNumber(EncodeBig(x))) == Ok(x) <==> 0 <= x < Pow(16, 64)
    ensures x < 0 ==> ValueOf(CheckNumber(EncodeBig(x))) == Err(ErrMissingPrefix)
    ensures x >= Pow(16, 64) ==> ValueOf(CheckNumber(EncodeBig(x))) == Err(ErrBig256Range)
  {
    hide Pow, HexVal, Digits;
    if x >= 0 {
      DigitsValue(x);
      DigitsLength(x, 64);
      assert EncodeBig(x) == "0x" + Digits(x);
      assert EncodeBig(x)[2..] == Digits(x);
    } else {
      assert EncodeBig(x)[0] == '-';
    }
  }

  function LowerChar(c: char): char {
    if 'A' <= c <= 'Z' then (c as int + 32) as char else c
  }

  function Lower(s: string): (r: string)
    ensures |r| == |s|
  {
    seq(|s|, i requires 0 <= i < |s| => LowerChar(s[i]))
  }

  /** The digits of a number without a leading zero are its own, in lower case. */
  lemma {:induction false} DigitsOfValue(s: string)
    requires IsHex(s) && s != "" && (|s| > 1 ==> s[0] != '0')
    ensures Digits(HexVal(s)) == Lower(s)
    ensures HexVal(s) == 0 ==> s == "0"
  {
    hide Nibble, Digit, LowerChar;
    var n := |s| - 1;
    var d := Nibble(s[n]).value;
    LowerDigit(s[n]);
    if n == 0 {
      assert HexVal(s[..0]) == 0;
      assert Lower(s) == [Digit(d)];
    } else {
      var t := s[..n];
      DigitsOfValue(t);
      assert Lower(s) == Lower(t) + [Digit(d)];
      var v := HexVal(t);
      assert v > 0;
      assert (v * 16 + d) / 16 == v && (v * 16 + d) % 16 == d;
    }
  }

  lemma LowerDigit(c: char)
    requires Nibble(c).Some?
    ensures Nibble(c).value < 16 && Digit(Nibble(c).value) == LowerChar(c) && (Nibble(c).value == 0 <==> c == '0')
  {
  }

  /** Encoding what DecodeBig accepted gives the input in lower case. */
  lemma EncodeDecode(input: string)
    requires ValueOf(CheckNumber(input)).Ok?
    ensures EncodeBig(ValueOf(CheckNumber(input)).value) == Lower(input)
  {
    hide Digits, HexVal;
    var raw := CheckNumber(input).value;
    DigitsOfValue(raw);
    DigitsValue(0);
    assert input == input[..2] + raw;
    assert Lower(input) == "0x" + Lower(raw);
  }
}
