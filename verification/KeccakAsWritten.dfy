/**
 Round 1 of keccakF1600 as its text has it (crypto/sha3/keccakf.go:117-131), with the last row loaded
 into bc2, bc3, bc4, bc0, bc1: on which states that round, and the pass it begins, are right.
 */
module KeccakAsWritten {
  import opened Words
  import opened KeccakSpec
  import opened KeccakLayout
  import opened KeccakF
  import opened KeccakF1600
  import opened KeccakInjective

  /** Row 4 from the rotated lanes of its five columns. */
  function LastRow(l: seq<Word>, i: nat): Word
    requires |l| == 5
  {
    Combine(l[(i + 2) % 5], l[(i + 3) % 5], l[(i + 4) % 5])
  }

  /** The same with the lanes loaded into bc2, bc3, bc4, bc0, bc1. */
  function LastRowAsWritten(l: seq<Word>, i: nat): Word
    requires |l| == 5
  {
    Combine(l[(i + 3) % 5], l[(i + 4) % 5], l[(i + 5) % 5])
  }

  predicate AllEqual(l: seq<Word>)
    requires |l| == 5
  {
    l[0] == l[1] == l[2] == l[3] == l[4]
  }

  function RotatedRow(o: State, p: seq<nat>, d: seq<Word>): (l: seq<Word>)
    requires IsRow(p) && |d| == 5
    ensures |l| == 5
  {
    [Rotated(o[p[0]], d[0], 0, 3), Rotated(o[p[1]], d[1], 1, 4), Rotated(o[p[2]], d[2], 2, 0),
     Rotated(o[p[3]], d[3], 3, 1), Rotated(o[p[4]], d[4], 4, 2)]
  }

  lemma LastRowIsRow4(o: State, p: seq<nat>, d: seq<Word>, rc: Word, i: nat)
    requires IsRow(p) && |d| == 5 && i < 5
    ensures RowOut(o, p, d, rc, 4, i) == LastRow(RotatedRow(o, p, d), i)
  {
    hide Rotated, Combine;
    if i == 0 {} else if i == 1 {} else if i == 2 {} else if i == 3 {} else { assert i == 4; }
  }

  method LastRowOfRound1(a: array<Word>, p: seq<nat>, d: seq<Word>)
    requires a.Length == 25 && IsRow(p) && |d| == 5
    modifies a
    ensures AsWritten(old(a[..]), a[..], p, RotatedRow(old(a[..]), p, d))
  {
    hide RotL, Xor, Combine;
    var t := Xor(a[p[0]], d[0]);
    var bc2 := RotL(t, 41);
    t := Xor(a[p[1]], d[1]);
    var bc3 := RotL(t, 2);
    t := Xor(a[p[2]], d[2]);
    var bc4 := RotL(t, 62);
    t := Xor(a[p[3]], d[3]);
    var bc0 := RotL(t, 55);
    t := Xor(a[p[4]], d[4]);
    var bc1 := RotL(t, 39);
    ghost var l := RotatedRow(a[..], p, d);
    assert l == [bc2, bc3, bc4, bc0, bc1];
    WriteRow(a, p, bc0, bc1, bc2, bc3, bc4);
  }

  /** Chi maps a row of five equal bits, and no other, to five equal bits. */
  lemma ChiOfFive(a: bool, b: bool, c: bool, d: bool, e: bool)
    ensures var v, w, x, y, z := a != (c && !b), b != (d && !c), c != (e && !d), d != (a && !e), e != (b && !a);
            v == w == x == y == z <==> a == b == c == d == e
  {
  }

  lemma CombineBit(a: Word, b: Word, c: Word, z: nat)
    requires z < 64
    ensures Combine(a, b, c)[z] == (a[z] != (c[z] && !b[z]))
  {
  }

  /**
   The text of round 1 writes what section 3.2.3 of FIPS 202 asks for exactly when the five
   rotated lanes of the row are equal.
   */
  lemma LastRowAsWrittenIff(l: seq<Word>)
    requires |l| == 5
    ensures (forall i :: 0 <= i < 5 ==> LastRowAsWritten(l, i) == LastRow(l, i)) <==> AllEqual(l)
  {
    hide Combine;
    if l[0] == l[1] == l[2] == l[3] == l[4] {
      forall i | 0 <= i < 5
        ensures LastRowAsWritten(l, i) == LastRow(l, i)
      {
        assert l[(i + 2) % 5] == l[0] && l[(i + 3) % 5] == l[0] && l[(i + 4) % 5] == l[0] && l[(i + 5) % 5] == l[0];
      }
    }
    if forall i :: 0 <= i < 5 ==> LastRowAsWritten(l, i) == LastRow(l, i) {
      assert LastRowAsWritten(l, 0) == LastRow(l, 0) && LastRowAsWritten(l, 1) == LastRow(l, 1)
          && LastRowAsWritten(l, 2) == LastRow(l, 2) && LastRowAsWritten(l, 3) == LastRow(l, 3);
      forall z | 0 <= z < 64
        ensures l[0][z] == l[1][z] == l[2][z] == l[3][z] == l[4][z]
      {
        CombineBit(l[0], l[1], l[2], z);
        CombineBit(l[1], l[2], l[3], z);
        CombineBit(l[2], l[3], l[4], z);
        CombineBit(l[3], l[4], l[0], z);
        CombineBit(l[4], l[0], l[1], z);
        ChiOfFive(l[0][z], l[1][z], l[2][z], l[3][z], l[4][z]);
      }
      SameWord(l[0], l[1]);
      SameWord(l[1], l[2]);
      SameWord(l[2], l[3]);
      SameWord(l[3], l[4]);
    }
  }

  /** The five lanes of the last row of round 1, as that row rotates them. */
  function LastLanes(s: State): (l: seq<Word>)
    ensures |l| == 5
  {
    RotatedRow(s, RowPlaces(0, 4), Effects(s))
  }

  /** The state that Row4 would leave. */
  function WithRow(o: State, p: seq<nat>, l: seq<Word>): (a: State)
    requires IsRow(p) && |l| == 5
    ensures Elsewhere(o, a, p) && forall i :: 0 <= i < 5 ==> a[p[i]] == LastRow(l, i)
  {
    o[p[0] := LastRow(l, 0)][p[1] := LastRow(l, 1)][p[2] := LastRow(l, 2)][p[3] := LastRow(l, 3)][p[4] := LastRow(l, 4)]
  }

  lemma WithRowIsRow4(o: State, p: seq<nat>, d: seq<Word>, rc: Word)
    requires IsRow(p) && |d| == 5
    ensures RowWritten(o, WithRow(o, p, RotatedRow(o, p, d)), p, d, rc, 4)
  {
    hide LastRow, RowOut, RotatedRow, WithRow, IsRow;
    LastRowIsRow4(o, p, d, rc, 0);
    LastRowIsRow4(o, p, d, rc, 1);
    LastRowIsRow4(o, p, d, rc, 2);
    LastRowIsRow4(o, p, d, rc, 3);
    LastRowIsRow4(o, p, d, rc, 4);
  }

  /** The four rows before it leave the last row's places alone. */
  lemma LastLanesKept(rc: Word, s0: State, s1: State, s2: State, s3: State, s4: State, s5: State)
    requires RowWritten(s0, s1, RowPlaces(0, 0), Effects(s0), rc, 0)
    requires RowWritten(s1, s2, RowPlaces(0, 1), Effects(s0), rc, 1)
    requires RowWritten(s2, s3, RowPlaces(0, 2), Effects(s0), rc, 2)
    requires RowWritten(s3, s4, RowPlaces(0, 3), Effects(s0), rc, 3)
    requires RowWritten(s4, s5, RowPlaces(0, 4), Effects(s0), rc, 4)
    ensures RotatedRow(s4, RowPlaces(0, 4), Effects(s0)) == LastLanes(s0)
  {
    hide Effects, Rotated, RowWritten, Round1Places;
    var ss := [s0, s1, s2, s3, s4, s5];
    assert RowStep(0, rc, ss, 0) && RowStep(0, rc, ss, 1) && RowStep(0, rc, ss, 2)
        && RowStep(0, rc, ss, 3) && RowStep(0, rc, ss, 4);
    forall i | 0 <= i < 5
      ensures ss[4][RowPlaces(0, 4)[i]] == ss[0][RowPlaces(0, 4)[i]]
    {
      RowPlaceAt(0, 4, i);
      RowUntouched(0, rc, ss, 4, i, 0, 4);
    }
  }

  /** Two states that differ in the last row at most look the same after round 1 exactly when they are. */
  lemma SameViewIff(a: State, b: State)
    requires Elsewhere(a, b, RowPlaces(0, 4))
    ensures View(a, 1) == View(b, 1) <==> forall i :: 0 <= i < 5 ==> a[RowPlaces(0, 4)[i]] == b[RowPlaces(0, 4)[i]]
  {
    hide View, Round1Places;
    if View(a, 1) == View(b, 1) {
      forall i | 0 <= i < 5
        ensures a[RowPlaces(0, 4)[i]] == b[RowPlaces(0, 4)[i]]
      {
        RowPlaceAt(0, 4, i);
        ViewLane(a, 1, i, 4);
        ViewLane(b, 1, i, 4);
      }
    }
    if forall i :: 0 <= i < 5 ==> a[RowPlaces(0, 4)[i]] == b[RowPlaces(0, 4)[i]] {
      forall k | 0 <= k < 25
        ensures a[k] == b[k]
      {
        if k in RowPlaces(0, 4) {
          var i :| 0 <= i < 5 && RowPlaces(0, 4)[i] == k;
        } else {
          assert forall i :: 0 <= i < 5 ==> RowPlaces(0, 4)[i] != k;
        }
      }
      SameState(a, b);
    }
  }

  /** After the first four rows, the text of the last one completes the round exactly when its five lanes are equal. */
  lemma LastRowDecides(rc: Word, s0: State, s1: State, s2: State, s3: State, s4: State, s5: State)
    requires RowWritten(s0, s1, RowPlaces(0, 0), Effects(s0), rc, 0)
    requires RowWritten(s1, s2, RowPlaces(0, 1), Effects(s0), rc, 1)
    requires RowWritten(s2, s3, RowPlaces(0, 2), Effects(s0), rc, 2)
    requires RowWritten(s3, s4, RowPlaces(0, 3), Effects(s0), rc, 3)
    requires AsWritten(s4, s5, RowPlaces(0, 4), RotatedRow(s4, RowPlaces(0, 4), Effects(s0)))
    ensures View(s5, 1) == Round(View(s0, 0), rc) <==> AllEqual(LastLanes(s0))
  {
    hide *;
    var p := RowPlaces(0, 4);
    var l := RotatedRow(s4, p, Effects(s0));
    var t5 := WithRow(s4, p, l);
    WithRowIsRow4(s4, p, Effects(s0), rc);
    RowsMakeRound(0, rc, s0, s1, s2, s3, s4, t5);
    LastLanesKept(rc, s0, s1, s2, s3, s4, t5);
    LastRowComparesIff(s4, s5, l);
  }

  /** What LastRowOfRound1 does, from the rotated lanes l. */
  ghost predicate AsWritten(o: State, a: State, p: seq<nat>, l: seq<Word>)
    requires IsRow(p) && |l| == 5
  {
    Elsewhere(o, a, p) && forall i :: 0 <= i < 5 ==> a[p[i]] == LastRowAsWritten(l, i)
  }

  /** What the text of the last row writes and what Row4 would. */
  lemma LastRowComparesIff(s4: State, s5: State, l: seq<Word>)
    requires |l| == 5 && AsWritten(s4, s5, RowPlaces(0, 4), l)
    ensures View(s5, 1) == View(WithRow(s4, RowPlaces(0, 4), l), 1) <==> AllEqual(l)
  {
    hide View, LastRow, LastRowAsWritten, AllEqual, WithRow, Round1Places, IsRow;
    var p := RowPlaces(0, 4);
    var t5 := WithRow(s4, p, l);
    SameViewIff(s5, t5);
    LastRowAsWrittenIff(l);
  }

  /** Round 1 as its text has it. */
  method Round1AsWritten(a: array<Word>, rc: Word)
    requires a.Length == 25
    modifies a
    ensures View(a[..], 1) == Round(View(old(a[..]), 0), rc) <==> AllEqual(LastLanes(old(a[..])))
  {
    hide RowWritten, Effects, Round, View, IsRow, AllEqual, LastLanes, LastRowAsWritten, RotatedRow;
    ghost var s0 := a[..];
    var d := ColumnEffects(a);
    assert RowPlaces(0, 0) == [0, 6, 12, 18, 24];
    Row0(a, [0, 6, 12, 18, 24], d, rc);
    ghost var s1 := a[..];
    assert RowPlaces(0, 1) == [10, 16, 22, 3, 9];
    Row1(a, [10, 16, 22, 3, 9], d, rc);
    ghost var s2 := a[..];
    assert RowPlaces(0, 2) == [20, 1, 7, 13, 19];
    Row2(a, [20, 1, 7, 13, 19], d, rc);
    ghost var s3 := a[..];
    assert RowPlaces(0, 3) == [5, 11, 17, 23, 4];
    Row3(a, [5, 11, 17, 23, 4], d, rc);
    ghost var s4 := a[..];
    assert RowPlaces(0, 4) == [15, 21, 2, 8, 14];
    LastRowOfRound1(a, [15, 21, 2, 8, 14], d);
    ghost var s5 := a[..];
    LastRowDecides(rc, s0, s1, s2, s3, s4, s5);
  }

  /** The state of 25 zero lanes but for bit 0 of lane (0, 3). */
  function OneBit(): State {
    seq(15, k => Zero()) + [One()] + seq(9, k => Zero())
  }

  function One(): Word {
    seq(64, z => z == 0)
  }

  lemma ZeroWords(n: nat)
    requires n < 64
    ensures Xor(Zero(), Zero()) == Zero() && RotL(Zero(), n) == Zero()
  {
  }

  /** No column but column 0 has a bit set, so theta leaves columns 0, 2 and 3 alone. */
  lemma NoEffect(x: nat)
    requires x == 0 || x == 2
    ensures EffectLane(OneBit(), x) == Zero()
  {
    hide Xor, RotL, Zero, One;
    ZeroWords(1);
    assert Column(OneBit(), 1) == Zero() && Column(OneBit(), 3) == Zero() && Column(OneBit(), 4) == Zero();
  }

  /** Of the five lanes, the first has a bit set and the third has none: round 1 as written gets this state wrong. */
  lemma OneBitDiffers()
    ensures !AllEqual(LastLanes(OneBit()))
  {
    hide Xor, RotL, EffectLane, Effects;
    var s := OneBit();
    var l := LastLanes(s);
    NoEffect(0);
    NoEffect(2);
    ZeroWords(62);
    EffectsAt(s);
    assert s[2] == Zero() && s[15] == One();
    assert l[2] == Zero();
    RotLBit(Xor(One(), Zero()), 41, 41);
    XorBit(One(), Zero(), 0);
    assert l[0] == RotL(Xor(One(), Zero()), 41);
    assert l[0][41] && !l[2][41];
  }

  lemma EffectsAt(s: State)
    ensures Effects(s)[0] == EffectLane(s, 0) && Effects(s)[2] == EffectLane(s, 2)
  {
    hide EffectLane;
  }

  lemma XorBit(a: Word, b: Word, z: nat)
    requires z < 64
    ensures Xor(a, b)[z] == (a[z] != b[z])
  {
  }

  /**
   One pass of the loop body as its text has it: four rounds exactly when the five lanes of the input are
   equal. Rounds 2 to 4 do not repair what round 1 gets wrong, as a round never maps two states to one.
   */
  method PassAsWritten(a: array<Word>, rc0: Word, rc1: Word, rc2: Word, rc3: Word)
    requires a.Length == 25
    modifies a
    ensures a[..] == Round(Round(Round(Round(old(a[..]), rc0), rc1), rc2), rc3) <==> AllEqual(LastLanes(old(a[..])))
  {
    hide View, Round, AllEqual, LastLanes;
    ghost var s := a[..];
    ViewAtEnds(s);
    Round1AsWritten(a, rc0);
    ghost var v := View(a[..], 1);
    Round2(a, rc1);
    Round3(a, rc2);
    Round4(a, rc3);
    ViewAtEnds(a[..]);
    ThreeRoundsIff(v, Round(s, rc0), rc1, rc2, rc3);
  }

  lemma ThreeRoundsIff(a: State, b: State, rc1: Word, rc2: Word, rc3: Word)
    ensures Round(Round(Round(a, rc1), rc2), rc3) == Round(Round(Round(b, rc1), rc2), rc3) <==> a == b
  {
    hide Round;
    if Round(Round(Round(a, rc1), rc2), rc3) == Round(Round(Round(b, rc1), rc2), rc3) {
      RoundInjective(Round(Round(a, rc1), rc2), Round(Round(b, rc1), rc2), rc3);
      RoundInjective(Round(a, rc1), Round(b, rc1), rc2);
      RoundInjective(a, b, rc1);
    }
  }
}
