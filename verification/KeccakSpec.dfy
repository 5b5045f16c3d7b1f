/**
 The Keccak-p[1600, 24] permutation as sections 3.2 to 3.4 of FIPS 202 define it, bit by bit:
 five step mappings on A[x, y, z], with lane A[x, y] at index x + 5y.
 */
module KeccakSpec {
  import opened Words

  type State = s: seq<Word> | |s| == 25 witness seq(25, i => seq(64, z => false))

  predicate IsLane(x: nat, y: nat) { x < 5 && y < 5 }

  function Lane(s: State, x: nat, y: nat): Word
    requires IsLane(x, y)
  {
    s[x + 5 * y]
  }

  /** The state whose lane (x, y) is f(x, y). */
  function Lanes(f: (nat, nat) --> Word): (s: State)
    requires forall x, y :: IsLane(x, y) ==> f.requires(x, y)
    ensures forall x, y :: IsLane(x, y) ==> Lane(s, x, y) == f(x, y)
  {
    assert forall x: nat, y: nat :: IsLane(x, y) ==> (x + 5 * y) % 5 == x && (x + 5 * y) / 5 == y;
    seq(25, i requires 0 <= i < 25 => assert IsLane(i % 5, i / 5); f(i % 5, i / 5))
  }

  /** Section 3.2.1: C[x, z] and D[x, z]. */
  function Parity(s: State, x: nat, z: nat): bool
    requires x < 5 && z < 64
  {
    Lane(s, x, 0)[z] != (Lane(s, x, 1)[z] != (Lane(s, x, 2)[z] != (Lane(s, x, 3)[z] != Lane(s, x, 4)[z])))
  }

  function ThetaLane(s: State, x: nat, y: nat): Word
    requires IsLane(x, y)
  {
    seq(64, z requires 0 <= z < 64 =>
      Lane(s, x, y)[z] != (Parity(s, (x + 4) % 5, z) != Parity(s, (x + 1) % 5, (z + 63) % 64)))
  }

  /** Section 3.2.2, table 2 reduced modulo 64. */
  const OFFSETS: seq<nat> := [
    0, 1, 62, 28, 27,
    36, 44, 6, 55, 20,
    3, 10, 43, 25, 39,
    41, 45, 15, 21, 8,
    18, 2, 61, 56, 14]

  function Offset(x: nat, y: nat): (o: nat)
    requires IsLane(x, y)
    ensures o < 64
  {
    OFFSETS[x + 5 * y]
  }

  function RhoLane(s: State, x: nat, y: nat): Word
    requires IsLane(x, y)
  {
    seq(64, z requires 0 <= z < 64 => Lane(s, x, y)[(z + 64 - Offset(x, y)) % 64])
  }

  /** Section 3.2.3. */
  function PiLane(s: State, x: nat, y: nat): Word
    requires IsLane(x, y)
  {
    Lane(s, (x + 3 * y) % 5, x)
  }

  /** Section 3.2.4. */
  function ChiLane(s: State, x: nat, y: nat): Word
    requires IsLane(x, y)
  {
    seq(64, z requires 0 <= z < 64 =>
      Lane(s, x, y)[z] != (!Lane(s, (x + 1) % 5, y)[z] && Lane(s, (x + 2) % 5, y)[z]))
  }

  /** Section 3.2.5. */
  function IotaLane(s: State, rc: Word, x: nat, y: nat): Word
    requires IsLane(x, y)
  {
    if x == 0 && y == 0 then Xor(Lane(s, x, y), rc) else Lane(s, x, y)
  }

  function Theta(s: State): State { Lanes((x, y) requires IsLane(x, y) => ThetaLane(s, x, y)) }
  function Rho(s: State): State { Lanes((x, y) requires IsLane(x, y) => RhoLane(s, x, y)) }
  function Pi(s: State): State { Lanes((x, y) requires IsLane(x, y) => PiLane(s, x, y)) }
  function Chi(s: State): State { Lanes((x, y) requires IsLane(x, y) => ChiLane(s, x, y)) }
  function Iota(s: State, rc: Word): State { Lanes((x, y) requires IsLane(x, y) => IotaLane(s, rc, x, y)) }

  /** Section 3.3: one round. */
  function Round(s: State, rc: Word): State {
    Iota(Chi(Pi(Rho(Theta(s)))), rc)
  }

  /** The first n of the rounds with the constants rcs. */
  function Rounds(s: State, rcs: seq<Word>, n: nat): State
    requires n <= |rcs|
  {
    if n == 0 then s else Round(Rounds(s, rcs, n - 1), rcs[n - 1])
  }
}
