/**
 The code of keccakF1600, row by row, and its proof against KeccakSpec.

 A row of the unrolled text reads five lanes, rotates them into bc0 to bc4, and writes the
 combined lanes back to the same five places. The text of round 1 loads its last row into
 bc2, bc3, bc4, bc0, bc1 where the other rounds, and section 3.2.3 of FIPS 202, have
 bc3, bc4, bc0, bc1, bc2: Row4 is the row of the other rounds, and KeccakAsWritten has the text
 of round 1.
 */
module KeccakF1600 {
  import opened Words
  import opened KeccakSpec
  import opened KeccakLayout
  import opened KeccakF
  import opened RoundConstants

  /** bc_i of row y. */
  function RowLane(o: State, p: seq<nat>, d: seq<Word>, y: nat, i: nat): Word
    requires IsRow(p) && |d| == 5 && y < 5 && i < 5
  {
    Rotated(o[p[(i + 3 * y) % 5]], d[(i + 3 * y) % 5], (i + 3 * y) % 5, i)
  }

  function RowCombined(o: State, p: seq<nat>, d: seq<Word>, y: nat, i: nat): Word
    requires IsRow(p) && |d| == 5 && y < 5 && i < 5
  {
    Combine(RowLane(o, p, d, y, i), RowLane(o, p, d, y, (i + 1) % 5), RowLane(o, p, d, y, (i + 2) % 5))
  }

  /** What row y leaves at its place i. */
  function RowOut(o: State, p: seq<nat>, d: seq<Word>, rc: Word, y: nat, i: nat): Word
    requires IsRow(p) && |d| == 5 && y < 5 && i < 5
  {
    if y == 0 && i == 0 then Xor(RowCombined(o, p, d, y, i), rc) else RowCombined(o, p, d, y, i)
  }

  ghost predicate RowWritten(o: State, a: State, p: seq<nat>, d: seq<Word>, rc: Word, y: nat)
    requires IsRow(p) && |d| == 5 && y < 5
  {
    && a[p[0]] == RowOut(o, p, d, rc, y, 0) && a[p[1]] == RowOut(o, p, d, rc, y, 1)
    && a[p[2]] == RowOut(o, p, d, rc, y, 2) && a[p[3]] == RowOut(o, p, d, rc, y, 3)
    && a[p[4]] == RowOut(o, p, d, rc, y, 4)
    && Elsewhere(o, a, p)
  }

  /** Nothing but the five places changes. */
  ghost predicate Elsewhere(o: State, a: State, p: seq<nat>)
    requires IsRow(p)
  {
    forall k :: 0 <= k < 25 && k != p[0] && k != p[1] && k != p[2] && k != p[3] && k != p[4] ==> a[k] == o[k]
  }

  /** The last five statements of every row. */
  method WriteRow(a: array<Word>, p: seq<nat>, bc0: Word, bc1: Word, bc2: Word, bc3: Word, bc4: Word)
    requires a.Length == 25 && IsRow(p)
    modifies a
    ensures a[p[0]] == Combine(bc0, bc1, bc2) && a[p[1]] == Combine(bc1, bc2, bc3)
         && a[p[2]] == Combine(bc2, bc3, bc4) && a[p[3]] == Combine(bc3, bc4, bc0)
         && a[p[4]] == Combine(bc4, bc0, bc1)
    ensures Elsewhere(old(a[..]), a[..], p)
  {
    a[p[0]] := Combine(bc0, bc1, bc2);
    a[p[1]] := Combine(bc1, bc2, bc3);
    a[p[2]] := Combine(bc2, bc3, bc4);
    a[p[3]] := Combine(bc3, bc4, bc0);
    a[p[4]] := Combine(bc4, bc0, bc1);
  }

  function Effects(a: State): (d: seq<Word>)
    ensures |d| == 5
  {
    [EffectLane(a, 0), EffectLane(a, 1), EffectLane(a, 2), EffectLane(a, 3), EffectLane(a, 4)]
  }

  method ColumnEffects(a: array<Word>) returns (d: seq<Word>)
    requires a.Length == 25
    ensures d == Effects(a[..])
  {
    var bc0 := Xor5(a[0], a[5], a[10], a[15], a[20]);
    var bc1 := Xor5(a[1], a[6], a[11], a[16], a[21]);
    var bc2 := Xor5(a[2], a[7], a[12], a[17], a[22]);
    var bc3 := Xor5(a[3], a[8], a[13], a[18], a[23]);
    var bc4 := Xor5(a[4], a[9], a[14], a[19], a[24]);
    var d0 := Xor(bc4, RotL(bc1, 1));
    var d1 := Xor(bc0, RotL(bc2, 1));
    var d2 := Xor(bc1, RotL(bc3, 1));
    var d3 := Xor(bc2, RotL(bc4, 1));
    var d4 := Xor(bc3, RotL(bc0, 1));
    d := [d0, d1, d2, d3, d4];
  }

  method Row0(a: array<Word>, p: seq<nat>, d: seq<Word>, rc: Word)
    requires a.Length == 25 && IsRow(p) && |d| == 5
    modifies a
    ensures RowWritten(old(a[..]), a[..], p, d, rc, 0)
  {
    hide RotL, Xor, Combine;
    ghost var o := a[..];
    var bc0 := Xor(a[p[0]], d[0]);
    RotLZero(bc0);
    var t := Xor(a[p[1]], d[1]);
    var bc1 := RotL(t, 44);
    t := Xor(a[p[2]], d[2]);
    var bc2 := RotL(t, 43);
    t := Xor(a[p[3]], d[3]);
    var bc3 := RotL(t, 21);
    t := Xor(a[p[4]], d[4]);
    var bc4 := RotL(t, 14);
    assert bc0 == RowLane(o, p, d, 0, 0) && bc1 == RowLane(o, p, d, 0, 1) && bc2 == RowLane(o, p, d, 0, 2)
        && bc3 == RowLane(o, p, d, 0, 3) && bc4 == RowLane(o, p, d, 0, 4);
    WriteRow(a, p, bc0, bc1, bc2, bc3, bc4);
    a[p[0]] := Xor(a[p[0]], rc);
  }

  method Row1(a: array<Word>, p: seq<nat>, d: seq<Word>, ghost rc: Word)
    requires a.Length == 25 && IsRow(p) && |d| == 5
    modifies a
    ensures RowWritten(old(a[..]), a[..], p, d, rc, 1)
  {
    hide RotL, Xor, Combine;
    ghost var o := a[..];
    var t := Xor(a[p[0]], d[0]);
    var bc2 := RotL(t, 3);
    t := Xor(a[p[1]], d[1]);
    var bc3 := RotL(t, 45);
    t := Xor(a[p[2]], d[2]);
    var bc4 := RotL(t, 61);
    t := Xor(a[p[3]], d[3]);
    var bc0 := RotL(t, 28);
    t := Xor(a[p[4]], d[4]);
    var bc1 := RotL(t, 20);
    assert bc0 == RowLane(o, p, d, 1, 0) && bc1 == RowLane(o, p, d, 1, 1) && bc2 == RowLane(o, p, d, 1, 2)
        && bc3 == RowLane(o, p, d, 1, 3) && bc4 == RowLane(o, p, d, 1, 4);
    WriteRow(a, p, bc0, bc1, bc2, bc3, bc4);
  }

  method Row2(a: array<Word>, p: seq<nat>, d: seq<Word>, ghost rc: Word)
    requires a.Length == 25 && IsRow(p) && |d| == 5
    modifies a
    ensures RowWritten(old(a[..]), a[..], p, d, rc, 2)
  {
    hide RotL, Xor, Combine;
    ghost var o := a[..];
    var t := Xor(a[p[0]], d[0]);
    var bc4 := RotL(t, 18);
    t := Xor(a[p[1]], d[1]);
    var bc0 := RotL(t, 1);
    t := Xor(a[p[2]], d[2]);
    var bc1 := RotL(t, 6);
    t := Xor(a[p[3]], d[3]);
    var bc2 := RotL(t, 25);
    t := Xor(a[p[4]], d[4]);
    var bc3 := RotL(t, 8);
    assert bc0 == RowLane(o, p, d, 2, 0) && bc1 == RowLane(o, p, d, 2, 1) && bc2 == RowLane(o, p, d, 2, 2)
        && bc3 == RowLane(o, p, d, 2, 3) && bc4 == RowLane(o, p, d, 2, 4);
    WriteRow(a, p, bc0, bc1, bc2, bc3, bc4);
  }

  method Row3(a: array<Word>, p: seq<nat>, d: seq<Word>, ghost rc: Word)
    requires a.Length == 25 && IsRow(p) && |d| == 5
    modifies a
    ensures RowWritten(old(a[..]), a[..], p, d, rc, 3)
  {
    hide RotL, Xor, Combine;
    ghost var o := a[..];
    var t := Xor(a[p[0]], d[0]);
    var bc1 := RotL(t, 36);
    t := Xor(a[p[1]], d[1]);
    var bc2 := RotL(t, 10);
    t := Xor(a[p[2]], d[2]);
    var bc3 := RotL(t, 15);
    t := Xor(a[p[3]], d[3]);
    var bc4 := RotL(t, 56);
    t := Xor(a[p[4]], d[4]);
    var bc0 := RotL(t, 27);
    assert bc0 == RowLane(o, p, d, 3, 0) && bc1 == RowLane(o, p, d, 3, 1) && bc2 == RowLane(o, p, d, 3, 2)
        && bc3 == RowLane(o, p, d, 3, 3) && bc4 == RowLane(o, p, d, 3, 4);
    WriteRow(a, p, bc0, bc1, bc2, bc3, bc4);
  }

  method Row4(a: array<Word>, p: seq<nat>, d: seq<Word>, ghost rc: Word)
    requires a.Length == 25 && IsRow(p) && |d| == 5
    modifies a
    ensures RowWritten(old(a[..]), a[..], p, d, rc, 4)
  {
    hide RotL, Xor, Combine;
    ghost var o := a[..];
    var t := Xor(a[p[0]], d[0]);
    var bc3 := RotL(t, 41);
    t := Xor(a[p[1]], d[1]);
    var bc4 := RotL(t, 2);
    t := Xor(a[p[2]], d[2]);
    var bc0 := RotL(t, 62);
    t := Xor(a[p[3]], d[3]);
    var bc1 := RotL(t, 55);
    t := Xor(a[p[4]], d[4]);
    var bc2 := RotL(t, 39);
    assert bc0 == RowLane(o, p, d, 4, 0) && bc1 == RowLane(o, p, d, 4, 1) && bc2 == RowLane(o, p, d, 4, 2)
        && bc3 == RowLane(o, p, d, 4, 3) && bc4 == RowLane(o, p, d, 4, 4);
    WriteRow(a, p, bc0, bc1, bc2, bc3, bc4);
  }

  lemma RowWrittenAt(o: State, a: State, p: seq<nat>, d: seq<Word>, rc: Word, y: nat, i: nat)
    requires IsRow(p) && |d| == 5 && y < 5 && i < 5 && RowWritten(o, a, p, d, rc, y)
    ensures a[p[i]] == RowOut(o, p, d, rc, y, i)
  {
    if i == 0 {} else if i == 1 {} else if i == 2 {} else if i == 3 {} else { assert i == 4; }
  }

  /** The rows of a round do not share places. */
  lemma RowsApart(r: nat, y: nat, y': nat, i: nat)
    requires r < 4 && y < 5 && y' < 5 && y != y' && i < 5
    ensures Place(r + 1, i, y') !in RowPlaces(r, y)
  {
    forall j | 0 <= j < 5
      ensures RowPlaces(r, y)[j] != Place(r + 1, i, y')
    {
      RowPlaceAt(r, y, j);
      if Place(r + 1, j, y) == Place(r + 1, i, y') {
        PlaceInjective(r + 1, j, y, i, y');
      }
    }
  }

  /** Row y reads the lanes of the state that round r starts from. */
  lemma RowReads(r: nat, s0: State, s: State, y: nat, i: nat)
    requires r < 4 && y < 5 && i < 5
    requires forall c :: 0 <= c < 5 ==> s[RowPlaces(r, y)[c]] == s0[RowPlaces(r, y)[c]]
    ensures RowLane(s, RowPlaces(r, y), Effects(s0), y, i) == Moved(View(s0, r), i, y)
  {
    hide Rotated, View, RotL, Xor, Column, RowPlaces;
    var c, v := (i + 3 * y) % 5, View(s0, r);
    RowPlaceAt(r, y, c);
    RowSource(r, s0, i, y);
    assert Effects(s0)[c] == EffectLane(s0, c);
    ColumnOfView(s0, r, (c + 4) % 5);
    ColumnOfView(s0, r, (c + 1) % 5);
  }

  /** The place that row y reads in column (i + 3y) mod 5 holds lane ((i + 3y) mod 5, i). */
  lemma RowSource(r: nat, s0: State, i: nat, y: nat)
    requires r < 4 && y < 5 && i < 5
    ensures var c := (i + 3 * y) % 5;
            Lane(View(s0, r), c, i) == s0[Place(r + 1, c, y)]
  {
    hide View, Place;
    var c, k := (i + 3 * y) % 5, (i + 3 * y) / 5;
    assert (c + 2 * y) % 5 == i by {
      assert c + 2 * y == i + 5 * (y - k);
    }
    PlaceShifts(r, c, y);
    ViewLane(s0, r, c, i);
  }

  lemma RowMakesLane(r: nat, s0: State, s: State, rc: Word, y: nat, i: nat)
    requires r < 4 && y < 5 && i < 5
    requires forall c :: 0 <= c < 5 ==> s[RowPlaces(r, y)[c]] == s0[RowPlaces(r, y)[c]]
    ensures RowOut(s, RowPlaces(r, y), Effects(s0), rc, y, i) == Lane(Round(View(s0, r), rc), i, y)
  {
    hide RowLane, Moved, Combine, View, Round, RowPlaces, Effects;
    RowReads(r, s0, s, y, i);
    RowReads(r, s0, s, y, (i + 1) % 5);
    RowReads(r, s0, s, y, (i + 2) % 5);
    NextLaneIsRound(View(s0, r), rc, i, y);
  }

  /** Consecutive states of ss are related by the five rows of round r. */
  ghost predicate RowByRow(r: nat, rc: Word, ss: seq<State>)
    requires r < 4 && |ss| == 6
  {
    forall y :: 0 <= y < 5 ==> RowStep(r, rc, ss, y)
  }

  ghost predicate RowStep(r: nat, rc: Word, ss: seq<State>, y: nat)
    requires r < 4 && |ss| == 6 && y < 5
  {
    RowWritten(ss[y], ss[y + 1], RowPlaces(r, y), Effects(ss[0]), rc, y)
  }

  /** Before its turn a row is as it was at the start, and after its turn it stays. */
  lemma {:induction false} RowUntouched(r: nat, rc: Word, ss: seq<State>, y: nat, i: nat, lo: nat, hi: nat)
    requires r < 4 && |ss| == 6 && RowByRow(r, rc, ss) && y < 5 && i < 5
    requires lo <= hi <= 5 && (hi <= y || y < lo)
    ensures ss[hi][Place(r + 1, i, y)] == ss[lo][Place(r + 1, i, y)]
    decreases hi
  {
    hide RowOut, Place, RowPlaces, Effects;
    if lo < hi {
      RowUntouched(r, rc, ss, y, i, lo, hi - 1);
      assert RowStep(r, rc, ss, hi - 1);
      RowsApart(r, hi - 1, y, i);
    }
  }

  lemma RowsMakeLane(r: nat, rc: Word, ss: seq<State>, y: nat, i: nat)
    requires r < 4 && |ss| == 6 && RowByRow(r, rc, ss) && y < 5 && i < 5
    ensures ss[5][Place(r + 1, i, y)] == Lane(Round(View(ss[0], r), rc), i, y)
  {
    hide RowOut, Place, RowPlaces, Effects, Round, View, RowWritten, Lane;
    assert RowStep(r, rc, ss, y);
    RowUntouched(r, rc, ss, y, i, y + 1, 5);
    RowPlaceAt(r, y, i);
    forall c | 0 <= c < 5
      ensures ss[y][RowPlaces(r, y)[c]] == ss[0][RowPlaces(r, y)[c]]
    {
      RowPlaceAt(r, y, c);
      RowUntouched(r, rc, ss, y, c, 0, y);
    }
    RowMakesLane(r, ss[0], ss[y], rc, y, i);
    RowWrittenAt(ss[y], ss[y + 1], RowPlaces(r, y), Effects(ss[0]), rc, y, i);
  }

  lemma RowsMakeState(r: nat, rc: Word, ss: seq<State>)
    requires r < 4 && |ss| == 6 && RowByRow(r, rc, ss)
    ensures View(ss[5], r + 1) == Round(View(ss[0], r), rc)
  {
    hide RowByRow, View, Round;
    forall k | 0 <= k < 25
      ensures View(ss[5], r + 1)[k] == Round(View(ss[0], r), rc)[k]
    {
      RowsMakeIndex(r, rc, ss, k);
    }
    SameState(View(ss[5], r + 1), Round(View(ss[0], r), rc));
  }

  lemma RowsMakeIndex(r: nat, rc: Word, ss: seq<State>, k: nat)
    requires r < 4 && |ss| == 6 && RowByRow(r, rc, ss) && k < 25
    ensures View(ss[5], r + 1)[k] == Round(View(ss[0], r), rc)[k]
  {
    hide RowByRow, View, Round, Place;
    var x, y := k % 5, k / 5;
    assert x + 5 * y == k;
    RowsMakeLane(r, rc, ss, y, x);
    ViewLane(ss[5], r + 1, x, y);
  }

  lemma SameState(a: State, b: State)
    requires forall k :: 0 <= k < 25 ==> a[k] == b[k]
    ensures a == b
  {
  }

  lemma RowsMakeRound(r: nat, rc: Word, s0: State, s1: State, s2: State, s3: State, s4: State, s5: State)
    requires r < 4
    requires RowWritten(s0, s1, RowPlaces(r, 0), Effects(s0), rc, 0)
    requires RowWritten(s1, s2, RowPlaces(r, 1), Effects(s0), rc, 1)
    requires RowWritten(s2, s3, RowPlaces(r, 2), Effects(s0), rc, 2)
    requires RowWritten(s3, s4, RowPlaces(r, 3), Effects(s0), rc, 3)
    requires RowWritten(s4, s5, RowPlaces(r, 4), Effects(s0), rc, 4)
    ensures View(s5, r + 1) == Round(View(s0, r), rc)
  {
    hide RowWritten, Effects, View, Round, RowPlaces;
    var ss := [s0, s1, s2, s3, s4, s5];
    assert RowStep(r, rc, ss, 0) && RowStep(r, rc, ss, 1) && RowStep(r, rc, ss, 2)
        && RowStep(r, rc, ss, 3) && RowStep(r, rc, ss, 4);
    RowsMakeState(r, rc, ss);
  }

  method Round1(a: array<Word>, rc: Word)
    requires a.Length == 25
    modifies a
    ensures View(a[..], 1) == Round(View(old(a[..]), 0), rc)
  {
    hide RowWritten, Effects, Round, View, IsRow;
    ghost var s0 := a[..];
    var d := ColumnEffects(a);
    assert RowPlaces(0, 0) == [0, 6, 12, 18, 24];
    Row0(a, [0, 6, 12, 18, 24], d, rc);
    ghost var s1 := a[..];
    assert RowPlaces(0, 1) == [10, 16, 22, 3, 9];
    Row1(a, [10, 16, 22, 3, 9], d, rc);
    ghost var s2 := a[..];
    assert RowPlaces(0, 2) == [20, 1, 7, 13, 19];
    Row2(a, [20, 1, 7, 13, 19], d, rc);
    ghost var s3 := a[..];
    assert RowPlaces(0, 3) == [5, 11, 17, 23, 4];
    Row3(a, [5, 11, 17, 23, 4], d, rc);
    ghost var s4 := a[..];
    assert RowPlaces(0, 4) == [15, 21, 2, 8, 14];
    Row4(a, [15, 21, 2, 8, 14], d, rc);
    ghost var s5 := a[..];
    RowsMakeRound(0, rc, s0, s1, s2, s3, s4, s5);
  }

  method Round2(a: array<Word>, rc: Word)
    requires a.Length == 25
    modifies a
    ensures View(a[..], 2) == Round(View(old(a[..]), 1), rc)
  {
    hide RowWritten, Effects, Round, View, IsRow;
    ghost var s0 := a[..];
    var d := ColumnEffects(a);
    assert RowPlaces(1, 0) == [0, 16, 7, 23, 14];
    Row0(a, [0, 16, 7, 23, 14], d, rc);
    ghost var s1 := a[..];
    assert RowPlaces(1, 1) == [20, 11, 2, 18, 9];
    Row1(a, [20, 11, 2, 18, 9], d, rc);
    ghost var s2 := a[..];
    assert RowPlaces(1, 2) == [15, 6, 22, 13, 4];
    Row2(a, [15, 6, 22, 13, 4], d, rc);
    ghost var s3 := a[..];
    assert RowPlaces(1, 3) == [10, 1, 17, 8, 24];
    Row3(a, [10, 1, 17, 8, 24], d, rc);
    ghost var s4 := a[..];
    assert RowPlaces(1, 4) == [5, 21, 12, 3, 19];
    Row4(a, [5, 21, 12, 3, 19], d, rc);
    ghost var s5 := a[..];
    RowsMakeRound(1, rc, s0, s1, s2, s3, s4, s5);
  }

  method Round3(a: array<Word>, rc: Word)
    requires a.Length == 25
    modifies a
    ensures View(a[..], 3) == Round(View(old(a[..]), 2), rc)
  {
    hide RowWritten, Effects, Round, View, IsRow;
    ghost var s0 := a[..];
    var d := ColumnEffects(a);
    assert RowPlaces(2, 0) == [0, 11, 22, 8, 19];
    Row0(a, [0, 11, 22, 8, 19], d, rc);
    ghost var s1 := a[..];
    assert RowPlaces(2, 1) == [15, 1, 12, 23, 9];
    Row1(a, [15, 1, 12, 23, 9], d, rc);
    ghost var s2 := a[..];
    assert RowPlaces(2, 2) == [5, 16, 2, 13, 24];
    Row2(a, [5, 16, 2, 13, 24], d, rc);
    ghost var s3 := a[..];
    assert RowPlaces(2, 3) == [20, 6, 17, 3, 14];
    Row3(a, [20, 6, 17, 3, 14], d, rc);
    ghost var s4 := a[..];
    assert RowPlaces(2, 4) == [10, 21, 7, 18, 4];
    Row4(a, [10, 21, 7, 18, 4], d, rc);
    ghost var s5 := a[..];
    RowsMakeRound(2, rc, s0, s1, s2, s3, s4, s5);
  }

  method Round4(a: array<Word>, rc: Word)
    requires a.Length == 25
    modifies a
    ensures View(a[..], 4) == Round(View(old(a[..]), 3), rc)
  {
    hide RowWritten, Effects, Round, View, IsRow;
    ghost var s0 := a[..];
    var d := ColumnEffects(a);
    assert RowPlaces(3, 0) == [0, 1, 2, 3, 4];
    Row0(a, [0, 1, 2, 3, 4], d, rc);
    ghost var s1 := a[..];
    assert RowPlaces(3, 1) == [5, 6, 7, 8, 9];
    Row1(a, [5, 6, 7, 8, 9], d, rc);
    ghost var s2 := a[..];
    assert RowPlaces(3, 2) == [10, 11, 12, 13, 14];
    Row2(a, [10, 11, 12, 13, 14], d, rc);
    ghost var s3 := a[..];
    assert RowPlaces(3, 3) == [15, 16, 17, 18, 19];
    Row3(a, [15, 16, 17, 18, 19], d, rc);
    ghost var s4 := a[..];
    assert RowPlaces(3, 4) == [20, 21, 22, 23, 24];
    Row4(a, [20, 21, 22, 23, 24], d, rc);
    ghost var s5 := a[..];
    RowsMakeRound(3, rc, s0, s1, s2, s3, s4, s5);
  }

  /** The permutation of section 3.4 with 24 rounds, Keccak-f[1600]. */
  function KeccakP(s: State): State {
    Rounds(s, RC(), 24)
  }

  /** Before round 0 and after round 3 of a pass, the array is the state. */
  lemma ViewAtEnds(a: State)
    ensures View(a, 0) == a && View(a, 4) == a
  {
    hide View;
    forall k | 0 <= k < 25
      ensures View(a, 0)[k] == a[k] && View(a, 4)[k] == a[k]
    {
      ViewLane(a, 0, k % 5, k / 5);
      ViewLane(a, 4, k % 5, k / 5);
      PlaceAtEnds(k % 5, k / 5);
    }
  }

  /** One pass of the loop body is four rounds, for any four constants. */
  method Pass(a: array<Word>, rc0: Word, rc1: Word, rc2: Word, rc3: Word)
    requires a.Length == 25
    modifies a
    ensures a[..] == Round(Round(Round(Round(old(a[..]), rc0), rc1), rc2), rc3)
  {
    hide View, Round;
    ViewAtEnds(a[..]);
    Round1(a, rc0);
    Round2(a, rc1);
    Round3(a, rc2);
    Round4(a, rc3);
    ViewAtEnds(a[..]);
  }

  method Permute(a: array<Word>)
    requires a.Length == 25
    modifies a
    ensures a[..] == KeccakP(old(a[..]))
  {
    hide Round, RC;
    var i := 0;
    while i < 24
      invariant 0 <= i <= 24 && i % 4 == 0
      invariant a[..] == Rounds(old(a[..]), RC(), i)
    {
      Pass(a, RC()[i], RC()[i + 1], RC()[i + 2], RC()[i + 3]);
      FourRounds(old(a[..]), i);
      i := i + 4;
    }
  }

  lemma FourRounds(s: State, i: nat)
    requires i + 4 <= 24
    ensures Rounds(s, RC(), i + 4)
         == Round(Round(Round(Round(Rounds(s, RC(), i), RC()[i]), RC()[i + 1]), RC()[i + 2]), RC()[i + 3])
  {
    hide Round, RC;
    assert Rounds(s, RC(), i + 4) == Round(Rounds(s, RC(), i + 3), RC()[i + 3]);
    assert Rounds(s, RC(), i + 3) == Round(Rounds(s, RC(), i + 2), RC()[i + 2]);
    assert Rounds(s, RC(), i + 2) == Round(Rounds(s, RC(), i + 1), RC()[i + 1]);
  }
}
