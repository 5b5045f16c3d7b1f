/**
 The rotation amounts of rho: Keccak's table, as the 20 rotations of each round of
 crypto/sha3/keccakf.go use it, against algorithm 2 of section 3.2.2 of FIPS 202.
 */
module RhoOffsets {
  import opened KeccakSpec

  /** Step 3 of the algorithm walks (x, y) to (y, 2x + 3y) from (1, 0). */
  function Walk(t: nat): (p: (nat, nat))
    ensures p.0 < 5 && p.1 < 5
  {
    if t == 0 then (1, 0) else (Walk(t - 1).1, (2 * Walk(t - 1).0 + 3 * Walk(t - 1).1) % 5)
  }

  /** The walk, listed: every lane but (0, 0), once. */
  function WalkAt(t: nat): (nat, nat)
    requires t < 24
  {
    match t
    case 0 => (1, 0)
    case 1 => (0, 2)
    case 2 => (2, 1)
    case 3 => (1, 2)
    case 4 => (2, 3)
    case 5 => (3, 3)
    case 6 => (3, 0)
    case 7 => (0, 1)
    case 8 => (1, 3)
    case 9 => (3, 1)
    case 10 => (1, 4)
    case 11 => (4, 4)
    case 12 => (4, 0)
    case 13 => (0, 3)
    case 14 => (3, 4)
    case 15 => (4, 3)
    case 16 => (3, 2)
    case 17 => (2, 2)
    case 18 => (2, 0)
    case 19 => (0, 4)
    case 20 => (4, 2)
    case 21 => (2, 4)
    case 22 => (4, 1)
    case 23 => (1, 1)
  }

  lemma WalkStep(t: nat)
    requires 0 < t < 24
    ensures WalkAt(t) == (WalkAt(t - 1).1, (2 * WalkAt(t - 1).0 + 3 * WalkAt(t - 1).1) % 5)
  {
  }

  lemma WalkStart()
    ensures WalkAt(0) == (1, 0)
  {
  }

  lemma {:induction false} WalkIsListed(t: nat)
    requires t < 24
    ensures Walk(t) == WalkAt(t)
  {
    hide WalkAt;
    if t == 0 {
      WalkStart();
    } else {
      WalkIsListed(t - 1);
      WalkStep(t);
    }
  }

  lemma ListedOffset(t: nat)
    requires t < 24
    ensures var p := WalkAt(t); p.0 < 5 && p.1 < 5 && Offset(p.0, p.1) == ((t + 1) * (t + 2) / 2) % 64
  {
    match t
    case 0 => case 1 => case 2 => case 3 => case 4 => case 5 => case 6 => case 7 => case 8 => case 9 => case 10 => case 11 =>
    case 12 => case 13 => case 14 => case 15 => case 16 => case 17 => case 18 => case 19 => case 20 => case 21 => case 22 => case 23 =>
  }

  /** Lane (0, 0) is not rotated, and the lane reached at step t by (t + 1)(t + 2) / 2 modulo 64. */
  lemma OffsetsFollowTheWalk(t: nat)
    requires t < 24
    ensures Offset(0, 0) == 0
    ensures Offset(Walk(t).0, Walk(t).1) == ((t + 1) * (t + 2) / 2) % 64
  {
    hide WalkAt;
    WalkIsListed(t);
    ListedOffset(t);
  }
}
