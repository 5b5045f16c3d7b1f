/**
 The round constants: the table rc of crypto/sha3/keccakf.go, each 64-bit literal given by the
 positions of its one bits, against the shift register of section 3.2.5 of FIPS 202.
 */
module RoundConstants {
  import opened Words

  /** The one bits of rc[i]. */
  function Ones(i: nat): seq<nat>
    requires i < 24
  {
    match i
    case 0 => [0]
    case 1 => [1, 7, 15]
    case 2 => [1, 3, 7, 15, 63]
    case 3 => [15, 31, 63]
    case 4 => [0, 1, 3, 7, 15]
    case 5 => [0, 31]
    case 6 => [0, 7, 15, 31, 63]
    case 7 => [0, 3, 15, 63]
    case 8 => [1, 3, 7]
    case 9 => [3, 7]
    case 10 => [0, 3, 15, 31]
    case 11 => [1, 3, 31]
    case 12 => [0, 1, 3, 7, 15, 31]
    case 13 => [0, 1, 3, 7, 63]
    case 14 => [0, 3, 7, 15, 63]
    case 15 => [0, 1, 15, 63]
    case 16 => [1, 15, 63]
    case 17 => [7, 63]
    case 18 => [1, 3, 15]
    case 19 => [1, 3, 31, 63]
    case 20 => [0, 7, 15, 31, 63]
    case 21 => [7, 15, 63]
    case 22 => [0, 31]
    case 23 => [3, 15, 31, 63]
  }

  function FromOnes(ones: seq<nat>): Word {
    seq(64, z requires 0 <= z < 64 => z in ones)
  }

  /** The table as the rounds index it. */
  function RC(): (t: seq<Word>)
    ensures |t| == 24
  {
    seq(24, i requires 0 <= i < 24 => FromOnes(Ones(i)))
  }

  /** Algorithm 5: the register R[0] to R[7]. */
  datatype Register = R(r0: bool, r1: bool, r2: bool, r3: bool, r4: bool, r5: bool, r6: bool, r7: bool)
  {
    function Shift(): Register {
      R(r7, r0, r1, r2, r3 != r7, r4 != r7, r5 != r7, r6)
    }
  }

  const START := R(true, false, false, false, false, false, false, false)

  function Run(r: Register, steps: nat): Register {
    if steps == 0 then r else Run(r, steps - 1).Shift()
  }

  /** rc(t), for t below 255. */
  function RcBit(t: nat): bool {
    Run(START, t).r0
  }

  /** Algorithm 6, step 3: RC[2^j - 1] = rc(j + 7 i) for j = 0 to 6, and zero elsewhere. */
  function LfsrConstant(i: nat): Word {
    seq(64, z requires 0 <= z < 64 =>
      match z
      case 0 => RcBit(7 * i)
      case 1 => RcBit(7 * i + 1)
      case 3 => RcBit(7 * i + 2)
      case 7 => RcBit(7 * i + 3)
      case 15 => RcBit(7 * i + 4)
      case 31 => RcBit(7 * i + 5)
      case 63 => RcBit(7 * i + 6)
      case _ => false)
  }

  /** The register at the start of each round. */
  function RegisterAt(i: nat): Register
    requires i < 24
  {
    match i
    case 0 => R(true, false, false, false, false, false, false, false)
    case 1 => R(false, false, false, false, false, false, false, true)
    case 2 => R(false, false, false, true, true, false, true, true)
    case 3 => R(false, true, false, true, true, false, false, false)
    case 4 => R(true, true, true, true, true, false, true, true)
    case 5 => R(true, false, false, true, false, false, false, false)
    case 6 => R(true, false, true, false, true, true, false, false)
    case 7 => R(true, true, true, true, false, false, true, false)
    case 8 => R(false, true, false, true, false, false, true, true)
    case 9 => R(false, false, false, false, true, true, true, false)
    case 10 => R(true, false, false, false, false, false, true, false)
    case 11 => R(false, false, true, true, false, true, true, true)
    case 12 => R(true, false, true, false, true, false, true, true)
    case 13 => R(true, false, true, true, false, false, true, true)
    case 14 => R(true, true, false, false, false, true, true, false)
    case 15 => R(true, true, false, true, false, true, false, true)
    case 16 => R(false, true, false, true, false, true, false, true)
    case 17 => R(false, true, false, true, false, true, false, false)
    case 18 => R(false, true, false, false, true, true, true, true)
    case 19 => R(false, false, false, true, false, true, true, true)
    case 20 => R(true, true, true, false, true, true, false, false)
    case 21 => R(false, true, true, true, true, true, false, false)
    case 22 => R(true, true, false, true, false, false, false, false)
    case 23 => R(false, false, true, false, false, false, true, false)
  }

  lemma {:induction false} RunSum(m: nat, n: nat)
    ensures Run(START, m + n) == Run(Run(START, m), n)
  {
    if n > 0 {
      RunSum(m, n - 1);
    }
  }

  lemma SevenShifts(i: nat)
    requires i < 23
    ensures Run(RegisterAt(i), 7) == RegisterAt(i + 1)
  {
    Unroll(RegisterAt(i));
    if i < 12 {
      EarlyShifts(i);
    } else {
      LateShifts(i);
    }
  }

  /** Seven shifts of a register. */
  function Seven(r: Register): Register {
    r.Shift().Shift().Shift().Shift().Shift().Shift().Shift()
  }

  lemma EarlyShifts(i: nat)
    requires i < 12
    ensures Seven(RegisterAt(i)) == RegisterAt(i + 1)
  {
    match i
    case 0 => case 1 => case 2 => case 3 => case 4 => case 5 => case 6 => case 7 => case 8 => case 9 => case 10 => case 11 =>
  }

  lemma LateShifts(i: nat)
    requires 12 <= i < 23
    ensures Seven(RegisterAt(i)) == RegisterAt(i + 1)
  {
    match i
    case 12 => case 13 => case 14 => case 15 => case 16 => case 17 => case 18 => case 19 => case 20 => case 21 => case 22 =>
  }

  lemma Unroll(r: Register)
    ensures Run(r, 0) == r && Run(r, 1) == r.Shift() && Run(r, 2) == r.Shift().Shift()
    ensures Run(r, 3) == Run(r, 2).Shift() && Run(r, 4) == Run(r, 3).Shift()
    ensures Run(r, 5) == Run(r, 4).Shift() && Run(r, 6) == Run(r, 5).Shift() && Run(r, 7) == Run(r, 6).Shift()
    ensures Run(r, 7) == Seven(r)
  {
  }

  lemma NextSeven(s: Register, m: nat)
    requires Run(START, m) == s
    ensures Run(START, m + 7) == Run(s, 7)
  {
    RunSum(m, 7);
  }

  lemma RegisterAtStart()
    ensures Run(START, 0) == RegisterAt(0)
  {
  }

  lemma {:induction false} RegisterAtRound(i: nat)
    requires i < 24
    ensures Run(START, 7 * i) == RegisterAt(i)
  {
    hide RegisterAt, Run;
    if i == 0 {
      RegisterAtStart();
    } else {
      RegisterAtRound(i - 1);
      NextSeven(RegisterAt(i - 1), 7 * (i - 1));
      SevenShifts(i - 1);
    }
  }

  lemma RoundBit(i: nat, j: nat)
    requires i < 24 && j < 7
    ensures RcBit(7 * i + j) == Run(RegisterAt(i), j).r0
  {
    RunSum(7 * i, j);
    RegisterAtRound(i);
  }

  /** The bits of rc[i] sit where the register puts them, and nowhere else. */
  ghost predicate OnesMatch(o: seq<nat>, r: Register) {
    && (0 in o <==> r.r0) && (1 in o <==> r.Shift().r0) && (3 in o <==> r.Shift().Shift().r0)
    && (7 in o <==> r.Shift().Shift().Shift().r0) && (15 in o <==> r.Shift().Shift().Shift().Shift().r0)
    && (31 in o <==> r.Shift().Shift().Shift().Shift().Shift().r0)
    && (63 in o <==> r.Shift().Shift().Shift().Shift().Shift().Shift().r0)
    && forall k :: 0 <= k < |o| ==> o[k] in {0, 1, 3, 7, 15, 31, 63}
  }

  lemma OnesMatch1(i: nat)
    requires 0 <= i < 4
    ensures OnesMatch(Ones(i), RegisterAt(i))
  {
    match i
    case 0 => case 1 => case 2 => case 3 =>
  }

  lemma OnesMatch2(i: nat)
    requires 4 <= i < 8
    ensures OnesMatch(Ones(i), RegisterAt(i))
  {
    match i
    case 4 => case 5 => case 6 => case 7 =>
  }

  lemma OnesMatch3(i: nat)
    requires 8 <= i < 12
    ensures OnesMatch(Ones(i), RegisterAt(i))
  {
    match i
    case 8 => case 9 => case 10 => case 11 =>
  }

  lemma OnesMatch4(i: nat)
    requires 12 <= i < 16
    ensures OnesMatch(Ones(i), RegisterAt(i))
  {
    match i
    case 12 => case 13 => case 14 => case 15 =>
  }

  lemma OnesMatch5(i: nat)
    requires 16 <= i < 20
    ensures OnesMatch(Ones(i), RegisterAt(i))
  {
    match i
    case 16 => case 17 => case 18 => case 19 =>
  }

  lemma OnesMatch6(i: nat)
    requires 20 <= i < 24
    ensures OnesMatch(Ones(i), RegisterAt(i))
  {
    match i
    case 20 => case 21 => case 22 => case 23 =>
  }

  lemma OnesMatchAll(i: nat)
    requires i < 24
    ensures OnesMatch(Ones(i), RegisterAt(i))
  {
    hide OnesMatch, Ones, RegisterAt;
    if i < 4 { OnesMatch1(i); } else if i < 8 { OnesMatch2(i); } else if i < 12 { OnesMatch3(i); }
    else if i < 16 { OnesMatch4(i); } else if i < 20 { OnesMatch5(i); } else { OnesMatch6(i); }
  }

  lemma BitIsLfsr(i: nat, z: nat)
    requires i < 24 && z < 64
    ensures z in Ones(i) <==> LfsrConstant(i)[z]
  {
    hide Ones, RegisterAt, RcBit;
    OnesMatchAll(i);
    Unroll(RegisterAt(i));
    if z == 0 { RoundBit(i, 0); }
    else if z == 1 { RoundBit(i, 1); }
    else if z == 3 { RoundBit(i, 2); }
    else if z == 7 { RoundBit(i, 3); }
    else if z == 15 { RoundBit(i, 4); }
    else if z == 31 { RoundBit(i, 5); }
    else if z == 63 { RoundBit(i, 6); }
  }

  /** The whole table rc is what the shift register generates. */
  lemma TableIsLfsr(i: nat)
    requires i < 24
    ensures RC()[i] == LfsrConstant(i)
  {
    hide Ones, LfsrConstant;
    forall z: nat | z < 64
      ensures RC()[i][z] == LfsrConstant(i)[z]
    {
      BitIsLfsr(i, z);
    }
    SameWord(RC()[i], LfsrConstant(i));
  }
}
