/**
 Two places where the text of crypto/sha3/sha3.go departs from what its comments say, and
 exactly when the departure does not matter.

 minInt (line 32) compares v1 <= v1 and always returns v1, and stateSize (line 21) is 8 * 8
 where its comment says 5 * 5 * 8. Digest takes the minimum, and a rate.
 */
module DigestAsWritten {
  import opened Words
  import opened KeccakSpec
  import opened Sponge
  import opened Wrappers
  import opened ModArith

  /** The test v1 <= v1. */
  function MinAsWritten(v1: nat, v2: nat): nat {
    if v1 <= v1 then v1 else v2
  }

  /** minInt is the minimum exactly when its first argument is. */
  lemma MinAsWrittenIff(v1: nat, v2: nat)
    ensures (MinAsWritten(v1, v2) <= v1 && MinAsWritten(v1, v2) <= v2) <==> v1 <= v2
  {
  }

  /**
   The aligned loop of Write with that minimum: it always takes lanes to the end of the block,
   and slicing past the end of the input panics, which is None.
   */
  function LanesAsWritten(f: State -> State, rate: nat, s: Absorber, offset: nat, p: seq<Byte>): Option<Absorber>
    requires IsRate(rate) && offset < rate && (|p| > 7 ==> offset % 8 == 0)
    decreases |p|
  {
    if |p| <= 7 then Some(AbsorbAll(f, rate, s, p)) else
      var n := 8 * (MinAsWritten(rate / 8, offset / 8 + |p| / 8) - offset / 8);
      if n > |p| then None else LanesAsWritten(f, rate, AbsorbAll(f, rate, s, p[..n]), 0, p[n..])
  }

  /** Write with that minimum: the unaligned head takes the rest of the lane, or panics. */
  function WriteAsWritten(f: State -> State, rate: nat, s: Absorber, p: seq<Byte>): Option<Absorber>
    requires IsRate(rate)
  {
    var offset := s.absorbed % rate;
    if (offset % 8 != 0 || |p| < 8) && |p| > 0 then
      var n := MinAsWritten(8 - offset % 8, |p|);
      if n > |p| then None else
        HeadOffset(s.absorbed, n, rate);
        LanesAsWritten(f, rate, AbsorbAll(f, rate, s, p[..n]), (s.absorbed + n) % rate, p[n..])
    else
      LanesAsWritten(f, rate, s, offset, p)
  }

  lemma HeadOffset(absorbed: nat, n: nat, rate: nat)
    requires IsRate(rate) && n == 8 - absorbed % rate % 8
    ensures var o := absorbed % rate;
            && (absorbed + n) % rate == (if o + n == rate then 0 else o + n)
            && (absorbed + n) % rate % 8 == 0
  {
    LaneEnd(absorbed % rate, rate);
    StretchEnd(absorbed, n, rate);
  }

  /** n bytes from a lane boundary end less than a lane past a block boundary, or are less than a lane. */
  predicate EndsInFirstLane(offset: nat, n: nat, rate: nat)
    requires IsRate(rate)
  {
    n <= 7 || (n >= rate - offset && (n - (rate - offset)) % rate <= 7)
  }

  /** What a caller can check before Write: the offset in the block and the length. */
  predicate WriteFits(absorbed: nat, n: nat, rate: nat)
    requires IsRate(rate)
  {
    var o := absorbed % rate;
    var head := if (o % 8 != 0 || n < 8) && n > 0 then 8 - o % 8 else 0;
    head <= n && (head <= n ==> EndsInFirstLane((absorbed + head) % rate, n - head, rate))
  }

  lemma {:induction false} LanesAsWrittenIff(f: State -> State, rate: nat, s: Absorber, offset: nat, p: seq<Byte>)
    requires IsRate(rate) && offset < rate && (|p| > 7 ==> offset % 8 == 0)
    ensures LanesAsWritten(f, rate, s, offset, p)
         == if EndsInFirstLane(offset, |p|, rate) then Some(AbsorbAll(f, rate, s, p)) else None
    decreases |p|
  {
    var n := rate - offset;
    assert offset % 8 == 0 ==> 8 * (rate / 8 - offset / 8) == n;
    if |p| > 7 && n <= |p| {
      LanesAsWrittenIff(f, rate, AbsorbAll(f, rate, s, p[..n]), 0, p[n..]);
      assert p == p[..n] + p[n..];
      AbsorbSplit(f, rate, s, p[..n], p[n..]);
      LaterBlocks(|p| - n, rate);
    }
  }

  lemma LaterBlocks(n: nat, rate: nat)
    requires IsRate(rate)
    ensures EndsInFirstLane(0, n, rate) <==> n % rate <= 7
  {
    if n < rate {
      DivModUnique(n, 0, n, rate);
    } else {
      ModShift(n, -1, rate);
    }
  }

  /** Write as its text has it absorbs the input exactly when it fits, and panics otherwise. */
  lemma WriteAsWrittenIff(f: State -> State, rate: nat, s: Absorber, p: seq<Byte>)
    requires IsRate(rate)
    ensures WriteAsWritten(f, rate, s, p)
         == if WriteFits(s.absorbed, |p|, rate) then Some(AbsorbAll(f, rate, s, p)) else None
  {
    hide LanesAsWritten, AbsorbAll, EndsInFirstLane;
    var o := s.absorbed % rate;
    if (o % 8 != 0 || |p| < 8) && |p| > 0 {
      HeadAsWrittenIff(f, rate, s, p);
    } else {
      LanesAsWrittenIff(f, rate, s, o, p);
      assert s.absorbed + 0 == s.absorbed && |p| - 0 == |p|;
    }
  }

  lemma HeadAsWrittenIff(f: State -> State, rate: nat, s: Absorber, p: seq<Byte>)
    requires IsRate(rate) && (s.absorbed % rate % 8 != 0 || |p| < 8) && |p| > 0
    ensures WriteAsWritten(f, rate, s, p)
         == if WriteFits(s.absorbed, |p|, rate) then Some(AbsorbAll(f, rate, s, p)) else None
  {
    hide LanesAsWritten, AbsorbAll, EndsInFirstLane;
    var n := 8 - s.absorbed % rate % 8;
    if n <= |p| {
      HeadOffset(s.absorbed, n, rate);
      LanesAsWrittenIff(f, rate, AbsorbAll(f, rate, s, p[..n]), (s.absorbed + n) % rate, p[n..]);
      assert p == p[..n] + p[n..];
      AbsorbSplit(f, rate, s, p[..n], p[n..]);
    }
  }

  /** A one-byte first write panics, at every rate. */
  lemma OneByteDoesNotFit(rate: nat)
    requires IsRate(rate)
    ensures !WriteFits(0, 1, rate)
  {
    DivModUnique(0, 0, 0, rate);
  }

  // ---------- stateSize ----------

  /** stateSize - capacity for the constructor of the given output bits; capacity is 2 * bits / 8. */
  function Rate(stateSize: int, bits: nat): int {
    stateSize - 2 * bits / 8
  }

  /** With 200 the four constructors have the usable rates 144, 136, 104 and 72. */
  lemma RatesFromComment()
    ensures Rate(200, 224) == 144 && Rate(200, 256) == 136 && Rate(200, 384) == 104 && Rate(200, 512) == 72
    ensures IsRate(144) && IsRate(136) && IsRate(104) && IsRate(72)
  {
  }

  /** With 8 * 8 only NewKeccak224 has a usable rate, one lane; NewKeccak256 divides by a rate of 0. */
  lemma StateSizeAsWritten(bits: nat)
    requires bits in {224, 256, 384, 512}
    ensures (Rate(8 * 8, bits) > 0 && IsRate(Rate(8 * 8, bits))) <==> bits == 224
    ensures Rate(8 * 8, 224) == 8 && Rate(8 * 8, 256) == 0
    ensures Rate(8 * 8, bits) != Rate(200, bits)
  {
  }
}
