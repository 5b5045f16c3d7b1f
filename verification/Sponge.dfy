/**
 The sponge construction of sections 4 and 5.1 of FIPS 202 on whole bytes, for any permutation
 f of the 200-byte state and any rate of whole lanes: block by block as the standard defines
 it, and byte by byte as an incremental hash can run it.
 */
module Sponge {
  import opened Words
  import opened KeccakSpec
  import ModArith

  predicate IsRate(rate: nat) {
    rate % 8 == 0 && 0 < rate < 200
  }

  /** Where a stretch within a block ends. */
  lemma StretchEnd(absorbed: nat, n: nat, rate: nat)
    requires rate > 0 && 0 < n <= rate - absorbed % rate
    ensures var o := absorbed % rate;
            (absorbed + n) % rate == if o + n == rate then 0 else o + n
  {
    var q, o := absorbed / rate, absorbed % rate;
    assert absorbed == rate * q + o;
    if o + n < rate {
      ModArith.DivModUnique(absorbed + n, q, o + n, rate);
    } else {
      assert rate * (q + 1) == rate * q + rate;
      ModArith.DivModUnique(absorbed + n, q + 1, 0, rate);
    }
  }

  /** The rest of a lane fits in the block and ends at a lane boundary. */
  lemma LaneEnd(o: nat, rate: nat)
    requires IsRate(rate) && o < rate
    ensures var n := 8 - o % 8;
            o + n <= rate && (o + n) % 8 == 0
  {
    assert o + (8 - o % 8) == 8 * (o / 8 + 1);
  }

  /** Byte b as byte k of a word. */
  function ByteWord(b: Byte, k: nat): Word {
    seq(64, z requires 0 <= z < 64 => 8 * k <= z < 8 * k + 8 && b[z - 8 * k])
  }

  /** Byte j of the state. */
  function XorByte(s: State, j: nat, b: Byte): State
    requires j < 200
  {
    s[j / 8 := Xor(s[j / 8], ByteWord(b, j % 8))]
  }

  function StateByte(s: State, j: nat): Byte
    requires j < 200
  {
    s[j / 8][8 * (j % 8)..8 * (j % 8) + 8]
  }

  function StateBytes(s: State): (r: seq<Byte>)
    ensures |r| == 200
  {
    seq(200, j requires 0 <= j < 200 => StateByte(s, j))
  }

  /** The bytes p, from byte j of the state on. */
  function XorBytes(s: State, j: nat, p: seq<Byte>): State
    requires j + |p| <= 200
    decreases |p|
  {
    if p == [] then s else XorBytes(XorByte(s, j, p[0]), j + 1, p[1..])
  }

  // ---------- the standard's definition ----------

  /** pad10*1 in whole bytes: a one bit first, a one bit last, zeroes between. */
  function PadByte(i: nat, n: nat): Byte {
    seq(8, z requires 0 <= z < 8 => (i == 0 && z == 0) || (i + 1 == n && z == 7))
  }

  function Padding(n: nat): (p: seq<Byte>)
    ensures |p| == n
  {
    seq(n, i requires 0 <= i < n => PadByte(i, n))
  }

  function Padded(m: seq<Byte>, rate: nat): (p: seq<Byte>)
    requires IsRate(rate)
  {
    m + Padding(rate - |m| % rate)
  }

  function AbsorbBlocks(f: State -> State, rate: nat, s: State, p: seq<Byte>): State
    requires IsRate(rate) && |p| % rate == 0
    decreases |p|
  {
    if p == [] then s else
      WholeBlock(p, rate);
      AbsorbBlocks(f, rate, f(XorBytes(s, 0, p[..rate])), p[rate..])
  }

  function Squeeze(f: State -> State, rate: nat, s: State, n: nat): (z: seq<Byte>)
    requires IsRate(rate)
    ensures |z| == n
    decreases n
  {
    if n <= rate then StateBytes(s)[..n] else StateBytes(s)[..rate] + Squeeze(f, rate, f(s), n - rate)
  }

  function ZeroState(): State {
    seq(25, i => Zero())
  }

  /** SPONGE[f, pad10*1, rate](m, n). */
  function Hash(f: State -> State, rate: nat, m: seq<Byte>, n: nat): seq<Byte>
    requires IsRate(rate)
  {
    PaddedLength(m, rate);
    Squeeze(f, rate, AbsorbBlocks(f, rate, ZeroState(), Padded(m, rate)), n)
  }

  lemma PaddedLength(m: seq<Byte>, rate: nat)
    requires IsRate(rate)
    ensures |Padded(m, rate)| == |m| / rate * rate + rate
    ensures |Padded(m, rate)| % rate == 0
  {
    var q := |m| / rate;
    assert |Padded(m, rate)| == q * rate + rate == (q + 1) * rate;
    MultipleMod(q + 1, rate);
  }

  lemma MultipleMod(q: nat, m: nat)
    requires m > 0
    ensures (q * m) % m == 0
  {
    if q > 0 {
      MultipleMod(q - 1, m);
      assert q * m == (q - 1) * m + m;
      ModPlus((q - 1) * m, m);
    }
  }

  lemma ModPlus(x: nat, m: nat)
    requires m > 0
    ensures (x + m) % m == x % m
  {
    ModArith.ModShift(x, 1, m);
  }

  lemma WholeBlock(p: seq<Byte>, rate: nat)
    requires rate > 0 && p != [] && |p| % rate == 0
    ensures rate <= |p| && (|p| - rate) % rate == 0
  {
    if |p| < rate {
      ModArith.DivModUnique(|p|, 0, |p|, rate);
    }
    ModArith.ModShift(|p|, -1, rate);
  }

  // ---------- byte by byte ----------

  datatype Absorber = Absorber(lanes: State, absorbed: nat)

  function AbsorbByte(f: State -> State, rate: nat, s: Absorber, b: Byte): Absorber
    requires IsRate(rate)
  {
    var lanes := XorByte(s.lanes, s.absorbed % rate, b);
    Absorber(if (s.absorbed + 1) % rate == 0 then f(lanes) else lanes, s.absorbed + 1)
  }

  function AbsorbAll(f: State -> State, rate: nat, s: Absorber, p: seq<Byte>): Absorber
    requires IsRate(rate)
    decreases |p|
  {
    if p == [] then s else AbsorbAll(f, rate, AbsorbByte(f, rate, s, p[0]), p[1..])
  }

  /** Any split of a message leads to the same state. */
  lemma {:induction false} AbsorbSplit(f: State -> State, rate: nat, s: Absorber, p: seq<Byte>, q: seq<Byte>)
    requires IsRate(rate)
    ensures AbsorbAll(f, rate, s, p + q) == AbsorbAll(f, rate, AbsorbAll(f, rate, s, p), q)
    decreases |p|
  {
    if p == [] {
      assert p + q == q;
    } else {
      assert (p + q)[0] == p[0] && (p + q)[1..] == p[1..] + q;
      AbsorbSplit(f, rate, AbsorbByte(f, rate, s, p[0]), p[1..], q);
    }
  }

  lemma {:induction false} XorBytesSplit(s: State, j: nat, p: seq<Byte>, q: seq<Byte>)
    requires j + |p| + |q| <= 200
    ensures XorBytes(s, j, p + q) == XorBytes(XorBytes(s, j, p), j + |p|, q)
    decreases |p|
  {
    if p == [] {
      assert p + q == q;
    } else {
      assert (p + q)[0] == p[0] && (p + q)[1..] == p[1..] + q;
      XorBytesSplit(XorByte(s, j, p[0]), j + 1, p[1..], q);
    }
  }

  lemma NextOffset(absorbed: nat, rate: nat)
    requires rate > 0
    ensures var o := absorbed % rate;
            (absorbed + 1) % rate == if o + 1 == rate then 0 else o + 1
  {
    var q, o := absorbed / rate, absorbed % rate;
    if o + 1 == rate {
      assert absorbed + 1 == rate * (q + 1);
      ModArith.DivModUnique(absorbed + 1, q + 1, 0, rate);
    } else {
      ModArith.DivModUnique(absorbed + 1, q, o + 1, rate);
    }
  }

  /** Bytes that fit in the current block are XORed in where it stands, and a full block is permuted. */
  lemma {:induction false} AbsorbRun(f: State -> State, rate: nat, s: Absorber, p: seq<Byte>)
    requires IsRate(rate) && 0 < |p| <= rate - s.absorbed % rate
    ensures var o := s.absorbed % rate;
            var lanes := XorBytes(s.lanes, o, p);
            AbsorbAll(f, rate, s, p)
              == Absorber(if o + |p| == rate then f(lanes) else lanes, s.absorbed + |p|)
    decreases |p|
  {
    NextOffset(s.absorbed, rate);
    if |p| == 1 {
      assert p[1..] == [];
    } else {
      AbsorbRun(f, rate, AbsorbByte(f, rate, s, p[0]), p[1..]);
    }
  }

  lemma AbsorbNothing(f: State -> State, rate: nat, s: Absorber)
    requires IsRate(rate)
    ensures AbsorbAll(f, rate, s, []) == s
  {
  }

  /** From a block boundary, absorbing byte by byte is absorbing block by block. */
  lemma {:induction false} BlocksByteByByte(f: State -> State, rate: nat, s: Absorber, p: seq<Byte>)
    requires IsRate(rate) && s.absorbed % rate == 0 && |p| % rate == 0
    ensures AbsorbAll(f, rate, s, p).lanes == AbsorbBlocks(f, rate, s.lanes, p)
    decreases |p|
  {
    hide AbsorbAll, XorBytes;
    if p == [] {
      AbsorbNothing(f, rate, s);
    } else {
      WholeBlock(p, rate);
      assert p == p[..rate] + p[rate..];
      AbsorbSplit(f, rate, s, p[..rate], p[rate..]);
      AbsorbRun(f, rate, s, p[..rate]);
      ModPlus(s.absorbed, rate);
      BlocksByteByByte(f, rate, AbsorbAll(f, rate, s, p[..rate]), p[rate..]);
    }
  }

  // ---------- the padding bits ----------

  const OPEN: Byte := [true, false, false, false, false, false, false, false]
  const CLOSE: Byte := [false, false, false, false, false, false, false, true]

  /** The state with the opening bit at the current offset and the closing bit at the end of the block. */
  function Pad(s: Absorber, rate: nat): State
    requires IsRate(rate)
  {
    XorByte(XorByte(s.lanes, s.absorbed % rate, OPEN), rate - 1, CLOSE)
  }

  predicate IsZeroByte(b: Byte) {
    forall z :: 0 <= z < 8 ==> !b[z]
  }

  lemma XorZeroByte(s: State, j: nat, b: Byte)
    requires j < 200 && IsZeroByte(b)
    ensures XorByte(s, j, b) == s
  {
    SameWord(Xor(s[j / 8], ByteWord(b, j % 8)), s[j / 8]);
  }

  lemma {:induction false} XorZeroBytes(s: State, j: nat, p: seq<Byte>)
    requires j + |p| <= 200 && forall i :: 0 <= i < |p| ==> IsZeroByte(p[i])
    ensures XorBytes(s, j, p) == s
    decreases |p|
  {
    if p != [] {
      XorZeroByte(s, j, p[0]);
      XorZeroBytes(s, j + 1, p[1..]);
    }
  }

  lemma XorOneByte(s: State, j: nat, b: Byte)
    requires j < 200
    ensures XorBytes(s, j, [b]) == XorByte(s, j, b)
  {
  }

  /** Opening and closing bit in one byte. */
  lemma XorOpenClose(s: State, j: nat)
    requires j < 200
    ensures XorByte(XorByte(s, j, OPEN), j, CLOSE) == XorByte(s, j, PadByte(0, 1))
  {
    var k := j % 8;
    SameWord(Xor(Xor(s[j / 8], ByteWord(OPEN, k)), ByteWord(CLOSE, k)), Xor(s[j / 8], ByteWord(PadByte(0, 1), k)));
  }

  /** XORing in the padding of a block sets the two bits. */
  lemma PaddingIsTwoBits(s: State, j: nat, n: nat)
    requires 0 < n && j + n <= 200
    ensures XorBytes(s, j, Padding(n)) == XorByte(XorByte(s, j, OPEN), j + n - 1, CLOSE)
  {
    hide XorBytes, XorByte, ByteWord;
    if n == 1 {
      assert Padding(1) == [PadByte(0, 1)];
      XorOneByte(s, j, PadByte(0, 1));
      XorOpenClose(s, j);
    } else {
      var mid := Padding(n)[1..n - 1];
      assert PadByte(0, n) == OPEN && PadByte(n - 1, n) == CLOSE;
      assert Padding(n) == [OPEN] + (mid + [CLOSE]);
      XorBytesSplit(s, j, [OPEN], mid + [CLOSE]);
      XorOneByte(s, j, OPEN);
      var t := XorByte(s, j, OPEN);
      XorBytesSplit(t, j + 1, mid, [CLOSE]);
      XorZeroBytes(t, j + 1, mid);
      XorOneByte(t, j + n - 1, CLOSE);
    }
  }

  /** Absorbing the padding is setting the two bits and permuting. */
  lemma AbsorbPadding(f: State -> State, rate: nat, s: Absorber)
    requires IsRate(rate)
    ensures AbsorbAll(f, rate, s, Padding(rate - s.absorbed % rate)).lanes == f(Pad(s, rate))
  {
    var n := rate - s.absorbed % rate;
    AbsorbRun(f, rate, s, Padding(n));
    PaddingIsTwoBits(s.lanes, s.absorbed % rate, n);
  }

  lemma {:induction false} AbsorbedCount(f: State -> State, rate: nat, s: Absorber, p: seq<Byte>)
    requires IsRate(rate)
    ensures AbsorbAll(f, rate, s, p).absorbed == s.absorbed + |p|
    decreases |p|
  {
    if p != [] {
      AbsorbedCount(f, rate, AbsorbByte(f, rate, s, p[0]), p[1..]);
    }
  }

  /** The incremental sponge computes the standard's: absorb, set the two bits, permute, squeeze. */
  lemma IncrementalIsHash(f: State -> State, rate: nat, m: seq<Byte>, n: nat)
    requires IsRate(rate)
    ensures Squeeze(f, rate, f(Pad(AbsorbAll(f, rate, Absorber(ZeroState(), 0), m), rate)), n)
         == Hash(f, rate, m, n)
  {
    var start := Absorber(ZeroState(), 0);
    PaddedLength(m, rate);
    BlocksByteByByte(f, rate, start, Padded(m, rate));
    AbsorbSplit(f, rate, start, m, Padding(rate - |m| % rate));
    AbsorbedCount(f, rate, start, m);
    AbsorbPadding(f, rate, AbsorbAll(f, rate, start, m));
  }

  /** Squeezing more bytes only appends. */
  lemma {:induction false} SqueezePrefix(f: State -> State, rate: nat, s: State, k: nat, n: nat)
    requires IsRate(rate) && k <= n
    ensures Squeeze(f, rate, s, n)[..k] == Squeeze(f, rate, s, k)
    decreases n
  {
    if k > rate {
      SqueezePrefix(f, rate, f(s), k - rate, n - rate);
    }
  }
}
