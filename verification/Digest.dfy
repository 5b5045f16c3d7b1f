/**
 The incremental hash of crypto/sha3/sha3.go: a digest absorbs any split of a message with
 aligned and unaligned paths, and Sum pads and squeezes a copy of it.

 rate is stateSize - capacity; see StateSizeAsWritten for the constant the text gives.
 int is unbounded, and slices have no spare capacity.
 */
module Digest {
  import opened Words
  import opened KeccakSpec
  import opened KeccakF1600
  import opened Sponge

  function Min(v1: nat, v2: nat): nat {
    if v1 <= v2 then v1 else v2
  }

  /** The little-endian word of at most eight bytes. */
  function Pack(p: seq<Byte>): Word {
    seq(64, z requires 0 <= z < 64 => z / 8 < |p| && p[z / 8][z % 8])
  }

  lemma PackStep(p: seq<Byte>)
    requires 0 < |p| <= 8
    ensures Or(Shl(Pack(p[1..]), 8), ByteWord(p[0], 0)) == Pack(p)
  {
    var l, r := Or(Shl(Pack(p[1..]), 8), ByteWord(p[0], 0)), Pack(p);
    forall z | 0 <= z < 64
      ensures l[z] == r[z]
    {
      if z >= 8 {
        assert (z - 8) / 8 == z / 8 - 1 && (z - 8) % 8 == z % 8;
      }
    }
    SameWord(l, r);
  }

  lemma PackEmpty()
    ensures Pack([]) == Zero()
  {
    SameWord(Pack([]), Zero());
  }

  /** Byte k of a shifted packed word, and the rest of it. */
  lemma ShiftedPack(p: seq<Byte>, k: nat)
    requires 0 < |p| && k + |p| <= 8
    ensures Shl(Pack(p), 8 * k) == Xor(ByteWord(p[0], k), Shl(Pack(p[1..]), 8 * (k + 1)))
  {
    var l, r := Shl(Pack(p), 8 * k), Xor(ByteWord(p[0], k), Shl(Pack(p[1..]), 8 * (k + 1)));
    forall z | 0 <= z < 64
      ensures l[z] == r[z]
    {
      if z >= 8 * k + 8 {
        assert (z - 8 * k) / 8 == (z - 8 * (k + 1)) / 8 + 1 && (z - 8 * k) % 8 == (z - 8 * (k + 1)) % 8;
      }
    }
    SameWord(l, r);
  }

  /** Bytes within one lane are XORed in as one shifted word. */
  lemma {:induction false} LaneOfBytes(s: State, j: nat, p: seq<Byte>)
    requires j < 200 && j % 8 + |p| <= 8
    ensures XorBytes(s, j, p) == s[j / 8 := Xor(s[j / 8], Shl(Pack(p), 8 * (j % 8)))]
    decreases |p|
  {
    var i, k := j / 8, j % 8;
    if p == [] {
      PackEmpty();
      SameWord(Xor(s[i], Shl(Pack(p), 8 * k)), s[i]);
    } else {
      var t := XorByte(s, j, p[0]);
      ShiftedPack(p, k);
      XorAssociates(s[i], ByteWord(p[0], k), Shl(Pack(p[1..]), 8 * (k + 1)));
      if |p| == 1 {
        PackEmpty();
        assert p[1..] == [];
        SameWord(Xor(t[i], Shl(Pack(p[1..]), 8 * (k + 1))), t[i]);
      } else {
        assert (j + 1) / 8 == i && (j + 1) % 8 == k + 1;
        LaneOfBytes(t, j + 1, p[1..]);
      }
    }
  }

  /** A rate of whole lanes keeps the offset's place within its lane. */
  lemma OffsetInRate(absorbed: nat, rate: nat)
    requires IsRate(rate)
    ensures var o := absorbed % rate;
            o < rate && o / 8 < rate / 8 <= 24 && (o % 8 == 0 ==> o + 8 <= rate)
  {
  }

  class Digest {
    const a: array<Word>
    const outputSize: nat
    const rate: nat
    var absorbed: nat

    ghost predicate Valid()
      reads this, a
    {
      a.Length == 25 && IsRate(rate)
    }

    ghost function View(): Absorber
      reads this, a
      requires Valid()
    {
      Absorber(a[..], absorbed)
    }

    constructor (outputSize: nat, rate: nat)
      requires IsRate(rate)
      ensures Valid() && fresh(a) && this.outputSize == outputSize && this.rate == rate
      ensures View() == Absorber(ZeroState(), 0)
    {
      this.outputSize := outputSize;
      this.rate := rate;
      absorbed := 0;
      a := new Word[25](i => Zero());
      new;
      assert a[..] == ZeroState();
    }

    constructor Copy(d: Digest)
      requires d.Valid()
      ensures Valid() && fresh(a) && outputSize == d.outputSize && rate == d.rate && View() == d.View()
    {
      outputSize := d.outputSize;
      rate := d.rate;
      absorbed := d.absorbed;
      a := new Word[25](i requires 0 <= i < 25 reads d, d.a => if d.a.Length == 25 then d.a[i] else Zero());
      new;
      assert a[..] == d.a[..];
    }

    method Reset()
      requires Valid()
      modifies this`absorbed, a
      ensures Valid() && View() == Absorber(ZeroState(), 0)
    {
      absorbed := 0;
      for i := 0 to a.Length
        invariant absorbed == 0 && forall j :: 0 <= j < i ==> a[j] == Zero()
      {
        a[i] := Zero();
      }
      assert a[..] == ZeroState();
    }

    /** At most what is left of the current lane. */
    method UnalignedAbsorb(p: seq<Byte>)
      requires Valid() && absorbed % rate % 8 + |p| <= 8
      modifies this`absorbed, a
      ensures Valid() && absorbed == old(absorbed) + |p|
      ensures old(absorbed) % rate + |p| <= 200
      ensures a[..] == XorBytes(old(a[..]), old(absorbed) % rate, p)
    {
      var t := Zero();
      PackEmpty();
      assert p[|p|..] == [];
      var i := |p|;
      while i > 0
        invariant 0 <= i <= |p| <= 8
        invariant t == Pack(p[i..])
        invariant absorbed == old(absorbed) && a[..] == old(a[..])
      {
        i := i - 1;
        t := Shl(t, 8);
        t := Or(t, ByteWord(p[i], 0));
        assert p[i..][1..] == p[i + 1..];
        PackStep(p[i..]);
      }
      var offset := absorbed % rate;
      OffsetInRate(absorbed, rate);
      t := Shl(t, 8 * (offset % 8));
      assert p[0..] == p;
      LaneOfBytes(a[..], offset, p);
      a[offset / 8] := Xor(a[offset / 8], t);
      absorbed := absorbed + |p|;
    }

    method Permute()
      requires Valid()
      modifies a
      ensures a[..] == KeccakP(old(a[..]))
    {
      KeccakF1600.Permute(a);
    }

    /** After a stretch of n bytes: a full block is permuted. */
    method PermuteIfFull(ghost before: Absorber, ghost p: seq<Byte>, ghost n: nat)
      requires Valid() && 0 < n <= |p| && n <= rate - before.absorbed % rate && absorbed == before.absorbed + n
      requires a[..] == XorBytes(before.lanes, before.absorbed % rate, p[..n])
      modifies a
      ensures AbsorbAll(KeccakP, rate, View(), p[n..]) == AbsorbAll(KeccakP, rate, before, p)
    {
      hide KeccakP, AbsorbAll, XorBytes;
      if absorbed % rate == 0 {
        Permute();
      }
      RunDone(before, p, n, rate);
    }

    /** The first lane may need to absorb unaligned or incomplete data. */
    method AbsorbHead(p: seq<Byte>) returns (rest: seq<Byte>)
      requires Valid() && p != []
      modifies this`absorbed, a
      ensures Valid() && |rest| < |p|
      ensures AbsorbAll(KeccakP, rate, View(), rest) == AbsorbAll(KeccakP, rate, old(View()), p)
      ensures rest != [] ==> absorbed % rate % 8 == 0
    {
      hide KeccakP, AbsorbAll, XorBytes, IsRate;
      HeadEnd(absorbed, rate, |p|);
      var offset := absorbed % rate;
      var toAbsorb := Min(8 - offset % 8, |p|);
      ghost var before := View();
      UnalignedAbsorb(p[..toAbsorb]);
      PermuteIfFull(before, p, toAbsorb);
      rest := p[toAbsorb..];
    }

    /** One turn of the aligned loop: as many whole lanes as the block and the input hold. */
    method AbsorbLanes(p: seq<Byte>, offset: nat) returns (rest: seq<Byte>)
      requires Valid() && |p| > 7 && offset == absorbed % rate && offset % 8 == 0
      modifies this`absorbed, a
      ensures Valid() && |rest| < |p|
      ensures AbsorbAll(KeccakP, rate, View(), rest) == AbsorbAll(KeccakP, rate, old(View()), p)
      ensures absorbed % rate % 8 == 0 && (|rest| > 7 ==> absorbed % rate == 0)
    {
      hide KeccakP, AbsorbAll, XorBytes, IsRate;
      LanesEnd(absorbed, rate, |p|);
      ghost var before := View();
      var firstLane := offset / 8;
      var lastLane := Min(rate / 8, firstLane + |p| / 8);
      rest := XorLanes(p, firstLane, lastLane);
      ghost var n := 8 * (lastLane - firstLane);
      absorbed := absorbed + (lastLane - firstLane) * 8;
      PermuteIfFull(before, p, n);
    }

    /** The loop over lanes of the aligned path. */
    method XorLanes(p: seq<Byte>, firstLane: nat, lastLane: nat) returns (rest: seq<Byte>)
      requires a.Length == 25 && firstLane <= lastLane <= 25 && 8 * (lastLane - firstLane) <= |p|
      modifies a
      ensures rest == p[8 * (lastLane - firstLane)..]
      ensures a[..] == XorBytes(old(a[..]), 8 * firstLane, p[..8 * (lastLane - firstLane)])
    {
      hide XorBytes, Pack, Xor;
      ghost var lanes := a[..];
      XorNoBytes(lanes, 8 * firstLane, p[..0]);
      rest := p;
      for lane := firstLane to lastLane
        invariant rest == p[8 * (lane - firstLane)..]
        invariant a[..] == XorBytes(lanes, 8 * firstLane, p[..8 * (lane - firstLane)])
      {
        LaneStep(lanes, p, firstLane, lane);
        a[lane] := Xor(a[lane], Pack(rest[..8]));
        rest := rest[8..];
      }
    }

    /** Less than a lane, from a lane boundary. */
    method AbsorbTail(p: seq<Byte>)
      requires Valid() && 0 < |p| < 8 && absorbed % rate % 8 == 0
      modifies this`absorbed, a
      ensures Valid() && View() == AbsorbAll(KeccakP, rate, old(View()), p)
    {
      hide KeccakP, AbsorbAll, XorBytes;
      ghost var before := View();
      OffsetInRate(absorbed, rate);
      UnalignedAbsorb(p);
      RunDone(before, p, |p|, rate);
      assert p[..|p|] == p;
      StretchEnd(before.absorbed, |p|, rate);
    }

    /**
     Absorbing p equals absorbing its bytes one at a time, whatever was absorbed before.
     */
    method Write(p: seq<Byte>) returns (n: nat)
      requires Valid()
      modifies this`absorbed, a
      ensures Valid() && n == |p|
      ensures View() == AbsorbAll(KeccakP, rate, old(View()), p)
    {
      hide KeccakP, XorBytes, AbsorbAll;
      var p' := p;
      var offset := absorbed % rate;
      var toWrite := |p'|;

      if (offset % 8 != 0 || |p'| < 8) && |p'| > 0 {
        p' := AbsorbHead(p');
        offset := absorbed % rate;
      }

      while |p'| > 7
        invariant Valid() && AbsorbAll(KeccakP, rate, View(), p') == AbsorbAll(KeccakP, rate, old(View()), p)
        invariant p' != [] ==> absorbed % rate % 8 == 0
        invariant |p'| > 7 ==> offset == absorbed % rate
        decreases |p'|
      {
        p' := AbsorbLanes(p', offset);
        offset := 0;
      }

      if |p'| > 0 {
        AbsorbTail(p');
      } else {
        AbsorbNothing(KeccakP, rate, View());
      }
      return toWrite;
    }

    /** The opening and closing bits are XORed straight into their lanes. */
    method SetPadding()
      requires Valid()
      modifies a
      ensures a[..] == Pad(old(View()), rate)
    {
      var offset := absorbed % rate;
      OffsetInRate(absorbed, rate);
      PaddingBits(offset % 8);
      var padOpenLane := offset / 8;
      a[padOpenLane] := Xor(a[padOpenLane], Shl(Zero()[0 := true], 8 * (offset % 8)));
      var padCloseLane := rate / 8 - 1;
      a[padCloseLane] := Xor(a[padCloseLane], Zero()[63 := true]);
      assert (rate - 1) / 8 == padCloseLane && (rate - 1) % 8 == 7;
    }

    method Finalize()
      requires Valid()
      modifies a
      ensures a[..] == KeccakP(Pad(old(View()), rate))
    {
      hide KeccakP, Pad;
      SetPadding();
      Permute();
    }

    /** The copied prefix, then toSqueeze bytes of output; the buffer is filled by whole lanes. */
    method SqueezeInto(prefix: seq<Byte>, toSqueeze: nat) returns (r: seq<Byte>)
      requires Valid()
      modifies a
      ensures r == prefix + Squeeze(KeccakP, rate, old(a[..]), toSqueeze)
    {
      hide KeccakP, Squeeze, StateBytes;
      var needed := toSqueeze + (8 - toSqueeze % 8) % 8;
      var buf := new Byte[|prefix| + needed](i => if 0 <= i < |prefix| then prefix[i] else OPEN);
      var pos := |prefix|;
      assert buf[..pos] == prefix;
      ghost var target := prefix + Squeeze(KeccakP, rate, a[..], needed);
      while pos < buf.Length
        invariant |prefix| <= pos <= buf.Length && (buf.Length - pos) % 8 == 0
        invariant buf[..pos] + Squeeze(KeccakP, rate, a[..], buf.Length - pos) == target
        decreases buf.Length - pos
      {
        pos := SqueezeBlock(buf, pos);
        if pos < buf.Length {
          Permute();
        }
      }
      SqueezeNothing(a[..], rate);
      assert buf[..pos] == target;
      SqueezePrefix(KeccakP, rate, old(a[..]), toSqueeze, needed);
      assert target[..|prefix| + toSqueeze] == prefix + Squeeze(KeccakP, rate, old(a[..]), needed)[..toSqueeze];
      return buf[..|prefix| + toSqueeze];
    }

    /** The inner loop: lanes of the current state, to the end of the block or of the buffer. */
    method SqueezeBlock(buf: array<Byte>, start: nat) returns (pos: nat)
      requires Valid() && buf as object != a as object && start < buf.Length && (buf.Length - start) % 8 == 0
      modifies buf
      ensures start < pos <= buf.Length && (buf.Length - pos) % 8 == 0
      ensures buf[..pos]
           + (if pos < buf.Length then Squeeze(KeccakP, rate, KeccakP(a[..]), buf.Length - pos) else [])
           == old(buf[..start]) + Squeeze(KeccakP, rate, a[..], buf.Length - start)
    {
      hide KeccakP, Squeeze, StateBytes, LaneBytes;
      pos := start;
      var i := 0;
      assert StateBytes(a[..])[..0] == [];
      while i < rate && pos < buf.Length
        invariant 0 <= i <= rate && i % 8 == 0 && pos == start + i <= buf.Length && (buf.Length - pos) % 8 == 0
        invariant buf[..pos] == old(buf[..start]) + StateBytes(a[..])[..i]
        invariant start < buf.Length && (i == 0 ==> pos == start)
      {
        NextLane(i, rate, buf.Length - pos);
        ghost var filled := buf[..pos];
        MoreStateBytes(a[..], i / 8);
        PutUint64(buf, pos, a[i / 8]);
        assert buf[..pos + 8] == filled + LaneBytes(a[i / 8]);
        pos := pos + 8;
        i := i + 8;
      }
      SqueezeOneBlock(a[..], rate, buf.Length - start);
    }

    /** Sum works on a copy: the digest itself is only read, and can be written to further. */
    method Sum(prefix: seq<Byte>) returns (r: seq<Byte>)
      requires Valid()
      ensures r == prefix + Squeeze(KeccakP, rate, KeccakP(Pad(View(), rate)), outputSize)
    {
      hide KeccakP, Squeeze, Pad;
      var dup := new Digest.Copy(this);
      dup.Finalize();
      r := dup.SqueezeInto(prefix, dup.outputSize);
    }
  }

  /** The eight bytes of a lane, little-endian. */
  function LaneBytes(w: Word): (p: seq<Byte>)
    ensures |p| == 8
  {
    seq(8, k requires 0 <= k < 8 => w[8 * k..8 * k + 8])
  }

  method PutUint64(buf: array<Byte>, pos: nat, w: Word)
    requires pos + 8 <= buf.Length
    modifies buf
    ensures buf[..] == old(buf[..pos]) + LaneBytes(w) + old(buf[pos + 8..])
  {
    for k := 0 to 8
      invariant buf[..pos + k] == old(buf[..pos]) + LaneBytes(w)[..k]
      invariant buf[pos + k..] == old(buf[pos + k..])
    {
      buf[pos + k] := w[8 * k..8 * k + 8];
    }
    assert buf[..] == buf[..pos + 8] + buf[pos + 8..];
  }

  lemma PaddingBits(k: nat)
    requires k < 8
    ensures Shl(Zero()[0 := true], 8 * k) == ByteWord(OPEN, k)
    ensures Zero()[63 := true] == ByteWord(CLOSE, 7)
  {
    SameWord(Shl(Zero()[0 := true], 8 * k), ByteWord(OPEN, k));
    SameWord(Zero()[63 := true], ByteWord(CLOSE, 7));
  }

  lemma NextLane(i: nat, rate: nat, left: nat)
    requires IsRate(rate) && i < rate && i % 8 == 0 && left > 0 && left % 8 == 0
    ensures i / 8 < 25 && 8 * (i / 8) == i && i + 8 <= rate && left >= 8 && (i + 8) % 8 == 0 && (left - 8) % 8 == 0
  {
  }

  lemma MoreStateBytes(s: State, l: nat)
    requires l < 25
    ensures StateBytes(s)[..8 * l + 8] == StateBytes(s)[..8 * l] + LaneBytes(s[l])
  {
    hide StateBytes, LaneBytes;
    forall k: nat | k < 8
      ensures StateBytes(s)[8 * l + k] == LaneBytes(s[l])[k]
    {
      ByteOfState(s, l, k);
    }
  }

  lemma ByteOfState(s: State, l: nat, k: nat)
    requires l < 25 && k < 8
    ensures StateBytes(s)[8 * l + k] == LaneBytes(s[l])[k]
  {
    assert (8 * l + k) / 8 == l && (8 * l + k) % 8 == k;
  }

  lemma SqueezeNothing(s: State, rate: nat)
    requires IsRate(rate)
    ensures Squeeze(KeccakP, rate, s, 0) == []
  {
  }

  lemma SqueezeOneBlock(s: State, rate: nat, n: nat)
    requires IsRate(rate)
    ensures Squeeze(KeccakP, rate, s, n)
         == if n <= rate then StateBytes(s)[..n]
            else StateBytes(s)[..rate] + Squeeze(KeccakP, rate, KeccakP(s), n - rate)
  {
  }

  lemma XorNoBytes(s: State, at: nat, q: seq<Byte>)
    requires |q| == 0 && at <= 200
    ensures XorBytes(s, at, q) == s
  {
  }

  lemma ShlZero(w: Word)
    ensures Shl(w, 0) == w
  {
  }

  /** One lane of the aligned path: eight more bytes. */
  lemma LaneStep(s: State, q: seq<Byte>, first: nat, lane: nat)
    requires first <= lane < 25 && 8 * (lane + 1 - first) <= |q|
    ensures var n := 8 * (lane - first);
            var t := XorBytes(s, 8 * first, q[..n]);
            XorBytes(s, 8 * first, q[..n + 8]) == t[lane := Xor(t[lane], Pack(q[n..][..8]))]
  {
    hide XorBytes, Xor, Shl, Pack;
    var n := 8 * (lane - first);
    var t, w := XorBytes(s, 8 * first, q[..n]), q[n..][..8];
    assert q[..n + 8] == q[..n] + w;
    assert 8 * lane / 8 == lane && 8 * lane % 8 == 0 && 8 * first + n == 8 * lane;
    XorBytesSplit(s, 8 * first, q[..n], w);
    LaneOfBytes(t, 8 * lane, w);
    ShlZero(Pack(w));
  }

  /** What one stretch within a block does to the state, and what it leaves of the input. */
  lemma RunDone(before: Absorber, p: seq<Byte>, n: nat, rate: nat)
    requires IsRate(rate) && 0 < n <= |p| && n <= rate - before.absorbed % rate
    ensures var lanes := XorBytes(before.lanes, before.absorbed % rate, p[..n]);
            var after := Absorber(if (before.absorbed + n) % rate == 0 then KeccakP(lanes) else lanes,
                                  before.absorbed + n);
            && AbsorbAll(KeccakP, rate, before, p[..n]) == after
            && AbsorbAll(KeccakP, rate, after, p[n..]) == AbsorbAll(KeccakP, rate, before, p)
  {
    hide KeccakP, XorBytes, AbsorbAll;
    AbsorbRun(KeccakP, rate, before, p[..n]);
    assert p == p[..n] + p[n..];
    AbsorbSplit(KeccakP, rate, before, p[..n], p[n..]);
    StretchEnd(before.absorbed, n, rate);
  }

  /** The first stretch ends at a lane boundary, or with the input. */
  lemma HeadEnd(absorbed: nat, rate: nat, len: nat)
    requires IsRate(rate) && len > 0
    ensures rate > 0
    ensures var o := absorbed % rate;
            var n := Min(8 - o % 8, len);
            && 0 < n <= rate - o && n <= len && o % 8 + n <= 8
            && (n < len ==> (absorbed + n) % rate % 8 == 0)
  {
    var o := absorbed % rate;
    LaneEnd(o, rate);
    StretchEnd(absorbed, Min(8 - o % 8, len), rate);
  }

  /** Whole lanes end at a lane boundary, and at the end of the block if more than a lane is left. */
  lemma LanesEnd(absorbed: nat, rate: nat, len: nat)
    requires IsRate(rate) && len > 7 && absorbed % rate % 8 == 0
    ensures var first := absorbed % rate / 8;
            var last := Min(rate / 8, first + len / 8);
            var n := 8 * (last - first);
            && first < last <= 24 && 8 * first == absorbed % rate && n <= len && n <= rate - absorbed % rate
            && (absorbed + n) % rate % 8 == 0
            && (len - n > 7 ==> (absorbed + n) % rate == 0)
  {
    var o := absorbed % rate;
    var first, last := LanesOf(o, rate, len);
    StretchEnd(absorbed, 8 * (last - first), rate);
  }

  /** The lanes from a lane boundary on that the input fills, up to the end of the block. */
  lemma LanesOf(o: nat, rate: nat, len: nat) returns (first: nat, last: nat)
    requires IsRate(rate) && o < rate && len > 7 && o % 8 == 0
    ensures first == o / 8 && last == Min(rate / 8, first + len / 8)
    ensures first < last <= 24 && 8 * first == o && 8 * (last - first) <= len && 8 * last <= rate
    ensures 8 * last % 8 == 0 && (len - 8 * (last - first) > 7 ==> 8 * last == rate)
  {
    first, last := o / 8, Min(rate / 8, o / 8 + len / 8);
    assert rate == 8 * (rate / 8);
  }

  /** After any writes from a reset digest, Sum appends the standard's hash of what was written. */
  lemma SumIsHash(rate: nat, m: seq<Byte>, n: nat)
    requires IsRate(rate)
    ensures Squeeze(KeccakP, rate, KeccakP(Pad(AbsorbAll(KeccakP, rate, Absorber(ZeroState(), 0), m), rate)), n)
         == Hash(KeccakP, rate, m, n)
  {
    hide KeccakP;
    IncrementalIsHash(KeccakP, rate, m, n);
  }
}
