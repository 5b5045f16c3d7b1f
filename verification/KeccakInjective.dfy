/**
 A round of section 3.3 of FIPS 202 loses nothing: states with the same image are the same. Theta is
 the step that needs an argument; the others move bits, or mix them five at a time.
 */
module KeccakInjective {
  import opened Words
  import opened KeccakSpec
  import ModArith

  lemma SameBits(a: State, b: State)
    requires forall x: nat, y: nat, z: nat :: IsLane(x, y) && z < 64 ==> Lane(a, x, y)[z] == Lane(b, x, y)[z]
    ensures a == b
  {
    forall k | 0 <= k < 25
      ensures a[k] == b[k]
    {
      assert IsLane(k % 5, k / 5) && k % 5 + 5 * (k / 5) == k;
      forall z | 0 <= z < 64
        ensures a[k][z] == b[k][z]
      {
        assert Lane(a, k % 5, k / 5)[z] == Lane(b, k % 5, k / 5)[z];
      }
      SameWord(a[k], b[k]);
    }
  }

  // ---------- theta ----------

  /** A plane of bits is, everywhere, the sum of itself moved by (i, 0) and by (j, k). */
  ghost predicate Recurs(d: (nat, nat) -> bool, i: nat, j: nat, k: nat) {
    forall x: nat, z: nat :: RecursAt(d, i, j, k, x, z)
  }

  ghost predicate RecursAt(d: (nat, nat) -> bool, i: nat, j: nat, k: nat, x: nat, z: nat) {
    d(x, z) == (d(x + i, z) != d(x + j, z + k))
  }

  /** Moved twice, the two mixed terms cancel. */
  lemma RecursTwice(d: (nat, nat) -> bool, i: nat, j: nat, k: nat)
    requires Recurs(d, i, j, k)
    ensures Recurs(d, 2 * i, 2 * j, 2 * k)
  {
    forall x: nat, z: nat
      ensures RecursAt(d, 2 * i, 2 * j, 2 * k, x, z)
    {
      assert RecursAt(d, i, j, k, x, z) && RecursAt(d, i, j, k, x + i, z) && RecursAt(d, i, j, k, x + j, z + k);
      assert x + i + i == x + 2 * i && x + i + j == x + j + i && x + j + j == x + 2 * j && z + k + k == z + 2 * k;
    }
  }

  ghost predicate Periodic(d: (nat, nat) -> bool) {
    forall x: nat, z: nat :: d(x, z) == d(x % 5, z % 64)
  }

  lemma PeriodicAt(d: (nat, nat) -> bool, x: nat, z: nat)
    requires Periodic(d)
    ensures d(x, z) == d(x % 5, z % 64)
  {
  }

  /** Six doublings of theta's recurrence: 63 * 64 rows of bits further on is the same row. */
  lemma ComesRound(d: (nat, nat) -> bool, u: nat, z: nat)
    requires Periodic(d) && Recurs(d, 256, 64, 4032) && u < 5 && z < 64
    ensures d(u, z) == (d((u + 1) % 5, z) != d((u + 4) % 5, z))
  {
    hide Periodic;
    assert RecursAt(d, 256, 64, 4032, u, z);
    PeriodicAt(d, u + 256, z);
    PeriodicAt(d, u + 64, z + 4032);
    assert (u + 256) % 5 == (u + 1) % 5 && (u + 64) % 5 == (u + 4) % 5 && (z + 4032) % 64 == z && z % 64 == z;
  }

  /** A plane of 5 by 64 bits with theta's recurrence is empty. */
  lemma RecurringIsEmpty(d: (nat, nat) -> bool, x: nat, z: nat)
    requires Periodic(d) && Recurs(d, 4, 1, 63) && x < 5 && z < 64
    ensures !d(x, z)
  {
    hide Periodic, Recurs;
    RecursTwice(d, 4, 1, 63);
    RecursTwice(d, 8, 2, 126);
    RecursTwice(d, 16, 4, 252);
    RecursTwice(d, 32, 8, 504);
    RecursTwice(d, 64, 16, 1008);
    RecursTwice(d, 128, 32, 2016);
    ComesRound(d, 0, z);
    ComesRound(d, 1, z);
    ComesRound(d, 2, z);
    ComesRound(d, 3, z);
    ComesRound(d, 4, z);
    FiveBits(d(0, z), d(1, z), d(2, z), d(3, z), d(4, z));
  }

  lemma FiveBits(a: bool, b: bool, c: bool, d: bool, e: bool)
    requires a == (b != e) && b == (c != a) && c == (d != b) && d == (e != c) && e == (a != d)
    ensures !a && !b && !c && !d && !e
  {
  }

  /** Where the column parities of two states differ. */
  ghost function ParityDiff(a: State, b: State): (nat, nat) -> bool {
    (x: nat, z: nat) => Parity(a, x % 5, z % 64) != Parity(b, x % 5, z % 64)
  }

  lemma ThetaBit(s: State, x: nat, y: nat, z: nat)
    requires IsLane(x, y) && z < 64
    ensures Lane(Theta(s), x, y)[z]
         == (Lane(s, x, y)[z] != (Parity(s, (x + 4) % 5, z) != Parity(s, (x + 1) % 5, (z + 63) % 64)))
  {
  }

  /** States with the same theta differ in a whole column or not at all. */
  lemma ColumnsDiffer(a: State, b: State, x: nat, y: nat, z: nat)
    requires Theta(a) == Theta(b) && IsLane(x, y) && z < 64
    ensures (Lane(a, x, y)[z] != Lane(b, x, y)[z]) == (ParityDiff(a, b)(x + 4, z) != ParityDiff(a, b)(x + 1, z + 63))
  {
    hide Theta, Parity;
    ThetaBit(a, x, y, z);
    ThetaBit(b, x, y, z);
  }

  lemma ParityPeriodic(a: State, b: State)
    ensures Periodic(ParityDiff(a, b))
  {
    hide Parity;
  }

  lemma ParityRecurs(a: State, b: State)
    requires Theta(a) == Theta(b)
    ensures Recurs(ParityDiff(a, b), 4, 1, 63)
  {
    hide Theta, ParityDiff, Periodic;
    var d := ParityDiff(a, b);
    ParityPeriodic(a, b);
    forall x: nat, z: nat
      ensures RecursAt(d, 4, 1, 63, x, z)
    {
      var u, v := x % 5, z % 64;
      ParityDiffHere(a, b, u, v);
      SamePlace(d, x, z, 0, 0);
      SamePlace(d, x, z, 4, 0);
      SamePlace(d, x, z, 1, 63);
    }
  }

  lemma SamePlace(d: (nat, nat) -> bool, x: nat, z: nat, i: nat, k: nat)
    requires Periodic(d)
    ensures d(x + i, z + k) == d(x % 5 + i, z % 64 + k)
  {
    hide Periodic;
    PeriodicAt(d, x + i, z + k);
    PeriodicAt(d, x % 5 + i, z % 64 + k);
    assert x + i == x % 5 + i + 5 * (x / 5) && z + k == z % 64 + k + 64 * (z / 64);
    ModArith.ModShift(x % 5 + i, x / 5, 5);
    ModArith.ModShift(z % 64 + k, z / 64, 64);
  }

  /** The parities differ when an odd number of bits of the column do. */
  lemma DiffOfParities(a: State, b: State, x: nat, z: nat)
    requires x < 5 && z < 64
    ensures ParityDiff(a, b)(x, z)
         == ((Lane(a, x, 0)[z] != Lane(b, x, 0)[z]) != ((Lane(a, x, 1)[z] != Lane(b, x, 1)[z])
            != ((Lane(a, x, 2)[z] != Lane(b, x, 2)[z]) != ((Lane(a, x, 3)[z] != Lane(b, x, 3)[z])
            != (Lane(a, x, 4)[z] != Lane(b, x, 4)[z])))))
  {
    hide Lane;
  }

  lemma ParityDiffHere(a: State, b: State, x: nat, z: nat)
    requires Theta(a) == Theta(b) && x < 5 && z < 64
    ensures RecursAt(ParityDiff(a, b), 4, 1, 63, x, z)
  {
    hide Theta, Lane, Parity, ParityDiff;
    var d := ParityDiff(a, b);
    var e := d(x + 4, z) != d(x + 1, z + 63);
    DiffOfParities(a, b, x, z);
    ColumnsDiffer(a, b, x, 0, z);
    ColumnsDiffer(a, b, x, 1, z);
    ColumnsDiffer(a, b, x, 2, z);
    ColumnsDiffer(a, b, x, 3, z);
    ColumnsDiffer(a, b, x, 4, z);
    assert d(x, z) == e;
  }

  lemma ThetaInjective(a: State, b: State)
    requires Theta(a) == Theta(b)
    ensures a == b
  {
    hide Theta, Parity, Lane, ParityDiff, Recurs, Periodic;
    var d := ParityDiff(a, b);
    ParityPeriodic(a, b);
    ParityRecurs(a, b);
    forall x: nat, y: nat, z: nat | IsLane(x, y) && z < 64
      ensures Lane(a, x, y)[z] == Lane(b, x, y)[z]
    {
      ColumnsDiffer(a, b, x, y, z);
      RecurringIsEmpty(d, (x + 4) % 5, z);
      RecurringIsEmpty(d, (x + 1) % 5, (z + 63) % 64);
      PeriodicAt(d, x + 4, z);
      PeriodicAt(d, x + 1, z + 63);
    }
    SameBits(a, b);
  }

  // ---------- the other steps ----------

  lemma RhoInjective(a: State, b: State)
    requires Rho(a) == Rho(b)
    ensures a == b
  {
    hide Rho, Lane, Offset;
    forall x: nat, y: nat, z: nat | IsLane(x, y) && z < 64
      ensures Lane(a, x, y)[z] == Lane(b, x, y)[z]
    {
      RhoBit(a, x, y, z);
      RhoBit(b, x, y, z);
    }
    SameBits(a, b);
  }

  lemma RhoBit(s: State, x: nat, y: nat, z: nat)
    requires IsLane(x, y) && z < 64
    ensures Lane(Rho(s), x, y)[(z + Offset(x, y)) % 64] == Lane(s, x, y)[z]
  {
    hide Offset;
    var o := Offset(x, y);
    assert ((z + o) % 64 + 64 - o) % 64 == z;
  }

  lemma PiInjective(a: State, b: State)
    requires Pi(a) == Pi(b)
    ensures a == b
  {
    hide Pi, Lane;
    forall x: nat, y: nat, z: nat | IsLane(x, y) && z < 64
      ensures Lane(a, x, y)[z] == Lane(b, x, y)[z]
    {
      PiLaneOf(a, x, y);
      PiLaneOf(b, x, y);
    }
    SameBits(a, b);
  }

  /** Pi moves lane (x, y) to (y, 2x + 3y). */
  lemma PiLaneOf(s: State, x: nat, y: nat)
    requires IsLane(x, y)
    ensures Lane(Pi(s), y, (2 * x + 3 * y) % 5) == Lane(s, x, y)
  {
    hide Pi, Lane;
    var t, q := (2 * x + 3 * y) % 5, (2 * x + 3 * y) / 5;
    BackInColumn(x, y, t, q);
    PiAt(s, y, t, x);
  }

  lemma PiAt(s: State, x: nat, y: nat, c: nat)
    requires IsLane(x, y) && c == (x + 3 * y) % 5
    ensures Lane(Pi(s), x, y) == Lane(s, c, x)
  {
    hide Lane;
  }

  lemma BackInColumn(x: nat, y: nat, t: nat, q: nat)
    requires x < 5 && 2 * x + 3 * y == 5 * q + t
    ensures (y + 3 * t) % 5 == x
  {
    ModArith.DivModUnique(y + 3 * t, x + 2 * y - 3 * q, x, 5);
  }

  /** Chi on five bits is one to one. */
  lemma ChiRow(a: bool, b: bool, c: bool, d: bool, e: bool, a': bool, b': bool, c': bool, d': bool, e': bool)
    requires (a != (!b && c)) == (a' != (!b' && c')) && (b != (!c && d)) == (b' != (!c' && d'))
    requires (c != (!d && e)) == (c' != (!d' && e')) && (d != (!e && a)) == (d' != (!e' && a'))
    requires (e != (!a && b)) == (e' != (!a' && b'))
    ensures a == a' && b == b' && c == c' && d == d' && e == e'
  {
  }

  lemma ChiBit(s: State, x: nat, y: nat, z: nat)
    requires IsLane(x, y) && z < 64
    ensures Lane(Chi(s), x, y)[z]
         == (Lane(s, x, y)[z] != (!Lane(s, (x + 1) % 5, y)[z] && Lane(s, (x + 2) % 5, y)[z]))
  {
  }

  lemma ChiInjective(a: State, b: State)
    requires Chi(a) == Chi(b)
    ensures a == b
  {
    hide Chi, Lane;
    forall x: nat, y: nat, z: nat | IsLane(x, y) && z < 64
      ensures Lane(a, x, y)[z] == Lane(b, x, y)[z]
    {
      ChiRowSame(a, b, y, z);
      assert x == 0 || x == 1 || x == 2 || x == 3 || x == 4;
    }
    SameBits(a, b);
  }

  lemma ChiRowSame(a: State, b: State, y: nat, z: nat)
    requires Chi(a) == Chi(b) && y < 5 && z < 64
    ensures Lane(a, 0, y)[z] == Lane(b, 0, y)[z] && Lane(a, 1, y)[z] == Lane(b, 1, y)[z]
         && Lane(a, 2, y)[z] == Lane(b, 2, y)[z] && Lane(a, 3, y)[z] == Lane(b, 3, y)[z]
         && Lane(a, 4, y)[z] == Lane(b, 4, y)[z]
  {
    hide Chi, Lane;
    ChiBits(a, y, z);
    ChiBits(b, y, z);
    ChiRow(Lane(a, 0, y)[z], Lane(a, 1, y)[z], Lane(a, 2, y)[z], Lane(a, 3, y)[z], Lane(a, 4, y)[z],
           Lane(b, 0, y)[z], Lane(b, 1, y)[z], Lane(b, 2, y)[z], Lane(b, 3, y)[z], Lane(b, 4, y)[z]);
  }

  lemma ChiBits(s: State, y: nat, z: nat)
    requires y < 5 && z < 64
    ensures Lane(Chi(s), 0, y)[z] == (Lane(s, 0, y)[z] != (!Lane(s, 1, y)[z] && Lane(s, 2, y)[z]))
    ensures Lane(Chi(s), 1, y)[z] == (Lane(s, 1, y)[z] != (!Lane(s, 2, y)[z] && Lane(s, 3, y)[z]))
    ensures Lane(Chi(s), 2, y)[z] == (Lane(s, 2, y)[z] != (!Lane(s, 3, y)[z] && Lane(s, 4, y)[z]))
    ensures Lane(Chi(s), 3, y)[z] == (Lane(s, 3, y)[z] != (!Lane(s, 4, y)[z] && Lane(s, 0, y)[z]))
    ensures Lane(Chi(s), 4, y)[z] == (Lane(s, 4, y)[z] != (!Lane(s, 0, y)[z] && Lane(s, 1, y)[z]))
  {
    hide Chi, Lane;
    ChiBit(s, 0, y, z);
    ChiBit(s, 1, y, z);
    ChiBit(s, 2, y, z);
    ChiBit(s, 3, y, z);
    ChiBit(s, 4, y, z);
  }

  lemma IotaBit(s: State, rc: Word, x: nat, y: nat, z: nat)
    requires IsLane(x, y) && z < 64
    ensures Lane(Iota(s, rc), x, y)[z] == (Lane(s, x, y)[z] != (x == 0 && y == 0 && rc[z]))
  {
  }

  lemma IotaInjective(a: State, b: State, rc: Word)
    requires Iota(a, rc) == Iota(b, rc)
    ensures a == b
  {
    hide Iota, Lane;
    forall x: nat, y: nat, z: nat | IsLane(x, y) && z < 64
      ensures Lane(a, x, y)[z] == Lane(b, x, y)[z]
    {
      IotaBit(a, rc, x, y, z);
      IotaBit(b, rc, x, y, z);
    }
    SameBits(a, b);
  }

  /** States with the same round are the same, whatever the constant. */
  lemma RoundInjective(a: State, b: State, rc: Word)
    requires Round(a, rc) == Round(b, rc)
    ensures a == b
  {
    hide Theta, Rho, Pi, Chi, Iota;
    IotaInjective(Chi(Pi(Rho(Theta(a)))), Chi(Pi(Rho(Theta(b)))), rc);
    ChiInjective(Pi(Rho(Theta(a))), Pi(Rho(Theta(b))));
    PiInjective(Rho(Theta(a)), Rho(Theta(b)));
    RhoInjective(Theta(a), Theta(b));
    ThetaInjective(a, b);
  }
}
