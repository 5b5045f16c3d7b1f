/**
 crypto/mnemonic.go for any word list. None stands for a run-time panic: a slice or an index out of
 range, or a division by zero. Integers do not overflow, which an int64 does not either for lists
 of fewer than 2^20 words.
 */
module Mnemonic {
  import opened Wrappers
  import opened HexUtil

  /** IndexOf */
  method IndexOf(slice: seq<string>, value: string) returns (p: int)
    ensures p == Index(slice, value)
    ensures p == -1 <==> value !in slice
    ensures p >= 0 ==> p < |slice| && slice[p] == value && value !in slice[..p]
  {
    for i := 0 to |slice|
      invariant value !in slice[..i]
      invariant Index(slice, value) == if value in slice[i..] then i + Index(slice[i..], value) else -1
    {
      if slice[i] == value {
        return i;
      }
      assert slice[i..][1..] == slice[i + 1..];
      assert slice[..i + 1] == slice[..i] + [slice[i]];
    }
    return -1;
  }

  function Index(slice: seq<string>, value: string): (p: int)
    ensures p == -1 <==> value !in slice
    ensures p >= 0 ==> p < |slice| && slice[p] == value
    ensures p >= -1
  {
    if slice == [] then -1
    else if slice[0] == value then 0
    else
      var p := Index(slice[1..], value);
      if p == -1 then -1 else p + 1
  }

  /** Go's % and /, which truncate towards zero. */
  function GoMod(a: int, n: nat): int
    requires n > 0
  {
    if a >= 0 then a % n else -((-a) % n)
  }

  function GoDiv(a: int, n: nat): int
    requires n > 0
  {
    if a >= 0 then a / n else -((-a) / n)
  }

  /** strconv.ParseInt(x, 16, 64) with its error dropped: a sign is allowed, and nonsense is 0. */
  function ParseInt(x: string): int {
    if x == "" then 0
    else if x[0] == '-' then (if |x| > 1 && IsHex(x[1..]) then -(HexVal(x[1..]) as int) else 0)
    else if x[0] == '+' then (if |x| > 1 && IsHex(x[1..]) then HexVal(x[1..]) else 0)
    else if IsHex(x) then HexVal(x) else 0
  }

  // ---------- encoding ----------

  function WordAt(words: seq<string>, w: int): Option<string> {
    if 0 <= w < |words| then Some(words[w]) else None
  }

  /** The three words of the eight characters at i. */
  function EncodeAt(words: seq<string>, message: string, i: nat): Option<seq<string>> {
    if i + 8 > |message| || words == [] then None
    else
      var bit, n := ParseInt(message[i..i + 8]), |words|;
      var w1 := GoMod(bit, n);
      var w2 := GoMod(GoDiv(bit, n) + w1, n);
      var w3 := GoMod(GoDiv(GoDiv(bit, n), n) + w2, n);
      match (WordAt(words, w1), WordAt(words, w2), WordAt(words, w3))
      case (Some(a), Some(b), Some(c)) => Some([a, b, c])
      case _ => None
  }

  /** A prefix already produced, and what comes of the rest. */
  function Joined<T>(out: seq<T>, rest: Option<seq<T>>): Option<seq<T>> {
    match rest
    case None => None
    case Some(more) => Some(out + more)
  }

  lemma JoinedNone<T>(rest: Option<seq<T>>)
    ensures Joined([], rest) == rest
  {
    if rest.Some? {
      assert [] + rest.value == rest.value;
    }
  }

  lemma JoinedEnd<T>(out: seq<T>)
    ensures Joined(out, Some([])) == Some(out)
  {
    assert out + [] == out;
  }

  lemma JoinedNothing<T>(out: seq<T>)
    ensures Joined(out, None) == None
  {
  }

  /** One more piece. */
  lemma JoinedStep<T>(out: seq<T>, piece: Option<seq<T>>, rest: Option<seq<T>>)
    ensures piece == None ==> Joined(out, piece) == None
    ensures piece.Some? ==> Joined(out, Joined(piece.value, rest)) == Joined(out + piece.value, rest)
  {
    if piece.Some? && rest.Some? {
      assert out + (piece.value + rest.value) == (out + piece.value) + rest.value;
    }
  }

  function EncodeFrom(words: seq<string>, message: string, i: nat): Option<seq<string>>
    decreases |message| - i
  {
    if i >= |message| then Some([])
    else
      match EncodeAt(words, message, i)
      case None => None
      case Some(ws) => Joined(ws, EncodeFrom(words, message, i + |message| / 8))
  }

  /** MnemonicEncode */
  method MnemonicEncode(words: seq<string>, message: string) returns (r: Option<seq<string>>)
    ensures r == EncodeFrom(words, message, 0)
  {
    hide ParseInt, GoMod, GoDiv, Joined;
    var out: seq<string>, n := [], |words|;
    var i: nat := 0;
    JoinedNone(EncodeFrom(words, message, 0));
    while i < |message|
      invariant EncodeFrom(words, message, 0) == Joined(out, EncodeFrom(words, message, i))
      decreases |message| - i
    {
      JoinedStep(out, EncodeAt(words, message, i), EncodeFrom(words, message, i + |message| / 8));
      if i + 8 > |message| || n == 0 {
        return None;
      }
      var x := message[i..i + 8];
      var bit := ParseInt(x);
      var w1 := GoMod(bit, n);
      var w2 := GoMod(GoDiv(bit, n) + w1, n);
      var w3 := GoMod(GoDiv(GoDiv(bit, n), n) + w2, n);
      if !(0 <= w1 < n && 0 <= w2 < n && 0 <= w3 < n) {
        return None;
      }
      out := out + [words[w1], words[w2], words[w3]];
      i := i + |message| / 8;
    }
    JoinedEnd(out);
    return Some(out);
  }

  // ---------- decoding ----------

  function Zeros(k: nat): string {
    seq(k, i => '0')
  }

  function Pad(s: string, width: nat): string {
    if |s| >= width then s else Zeros(width - |s|) + s
  }

  /** fmt's %08x: the sign counts in the width. */
  function Format(x: int): string {
    if x < 0 then "-" + Pad(Digits(-x), 7) else Pad(Digits(x), 8)
  }

  /** The number of three words; a word not in the list counts as -1. */
  function Number(words: seq<string>, a: string, b: string, c: string): int
    requires words != []
  {
    var n := |words|;
    var w1, w2, w3 := Index(words, a), Index(words, b), Index(words, c);
    var y, z := GoMod(w2 - w1, n), GoMod(w3 - w2, n);
    w1 + n * (if y < 0 then y + n else y) + n * n * (if z < 0 then z + n else z)
  }

  function DecodeFrom(words: seq<string>, list: seq<string>, i: nat): Option<string>
    decreases |list| - i
  {
    if i >= |list| then Some("")
    else if i + 2 >= |list| || words == [] then None
    else Joined(Format(Number(words, list[i], list[i + 1], list[i + 2])), DecodeFrom(words, list, i + 3))
  }

  /** MnemonicDecode */
  method MnemonicDecode(words: seq<string>, wordsar: seq<string>) returns (r: Option<string>)
    ensures r == DecodeFrom(words, wordsar, 0)
  {
    hide GoMod, Joined, Format;
    var out, n := "", |words|;
    var i: nat := 0;
    JoinedNone(DecodeFrom(words, wordsar, 0));
    while i < |wordsar|
      invariant DecodeFrom(words, wordsar, 0) == Joined(out, DecodeFrom(words, wordsar, i))
    {
      JoinedNothing<char>(out);
      if i + 2 >= |wordsar| || n == 0 {
        return None;
      }
      var w1 := IndexOf(words, wordsar[i]);
      var w2 := IndexOf(words, wordsar[i + 1]);
      var w3 := IndexOf(words, wordsar[i + 2]);
      var y := GoMod(w2 - w1, n);
      var z := GoMod(w3 - w2, n);
      if z < 0 {
        z := z + n;
      }
      if y < 0 {
        y := y + n;
      }
      var x := w1 + n * y + n * n * z;
      JoinedStep(out, Some(Format(x)), DecodeFrom(words, wordsar, i + 3));
      out := out + Format(x);
      i := i + 3;
    }
    JoinedEnd(out);
    return Some(out);
  }
}
