/**
 keccakF1600 (crypto/sha3/keccakf.go): the permutation in place, four rounds a pass, with the
 lanes of each row read from and written back to the same five places, so that the layout of
 the state in the array shifts from round to round.
 */
module KeccakF {
  import opened Words
  import opened KeccakSpec
  import opened KeccakLayout

  function RotL(t: Word, n: nat): Word
    requires n < 64
  {
    Or(Shl(t, n), Shr(t, 64 - n))
  }

  lemma RotLBit(t: Word, n: nat, z: nat)
    requires n < 64 && z < 64
    ensures RotL(t, n)[z] == t[(z + 64 - n) % 64]
  {
  }

  lemma RotLZero(t: Word)
    ensures RotL(t, 0) == t
  {
  }

  // ---------- the round, word by word ----------

  function Column(s: State, x: nat): Word
    requires x < 5
  {
    Xor5(s[x], s[x + 5], s[x + 10], s[x + 15], s[x + 20])
  }

  function EffectLane(s: State, x: nat): Word
    requires x < 5
  {
    Xor(Column(s, (x + 4) % 5), RotL(Column(s, (x + 1) % 5), 1))
  }

  lemma ThetaIsXor(s: State, x: nat, y: nat)
    requires IsLane(x, y)
    ensures ThetaLane(s, x, y) == Xor(Lane(s, x, y), EffectLane(s, x))
  {
    forall z | 0 <= z < 64
      ensures ThetaLane(s, x, y)[z] == Xor(Lane(s, x, y), EffectLane(s, x))[z]
    {
      RotLBit(Column(s, (x + 1) % 5), 1, z);
    }
    SameWord(ThetaLane(s, x, y), Xor(Lane(s, x, y), EffectLane(s, x)));
  }

  lemma RhoIsRotation(s: State, x: nat, y: nat)
    requires IsLane(x, y)
    ensures RhoLane(s, x, y) == RotL(Lane(s, x, y), Offset(x, y))
  {
  }

  /** Go's b0 ^ (b2 &^ b1). */
  function Combine(b0: Word, b1: Word, b2: Word): Word {
    Xor(b0, AndNot(b2, b1))
  }

  lemma ChiIsCombine(s: State, x: nat, y: nat)
    requires IsLane(x, y)
    ensures ChiLane(s, x, y) == Combine(Lane(s, x, y), Lane(s, (x + 1) % 5, y), Lane(s, (x + 2) % 5, y))
  {
  }

  /** Lane (x, y) after theta and rho, given what theta adds to its column. */
  function Rotated(lane: Word, effect: Word, x: nat, y: nat): Word
    requires IsLane(x, y)
  {
    RotL(Xor(lane, effect), Offset(x, y))
  }

  /** The rotated lane that pi moves to (x, y). */
  function Moved(s: State, x: nat, y: nat): Word
    requires IsLane(x, y)
  {
    var c := (x + 3 * y) % 5;
    Rotated(Lane(s, c, x), EffectLane(s, c), c, x)
  }

  lemma MovedIsPi(s: State, x: nat, y: nat)
    requires IsLane(x, y)
    ensures Lane(Pi(Rho(Theta(s))), x, y) == Moved(s, x, y)
  {
    var c := (x + 3 * y) % 5;
    RhoIsRotation(Theta(s), c, x);
    ThetaIsXor(s, c, x);
  }

  /** Lane (x, y) of the next round's state. */
  function NextLane(s: State, rc: Word, x: nat, y: nat): Word
    requires IsLane(x, y)
  {
    var l := Combine(Moved(s, x, y), Moved(s, (x + 1) % 5, y), Moved(s, (x + 2) % 5, y));
    if x == 0 && y == 0 then Xor(l, rc) else l
  }

  lemma NextLaneIsRound(s: State, rc: Word, x: nat, y: nat)
    requires IsLane(x, y)
    ensures Lane(Round(s, rc), x, y) == NextLane(s, rc, x, y)
  {
    var p := Pi(Rho(Theta(s)));
    ChiIsCombine(p, x, y);
    MovedIsPi(s, x, y);
    MovedIsPi(s, (x + 1) % 5, y);
    MovedIsPi(s, (x + 2) % 5, y);
  }

  // ---------- the layouts of a pass ----------

  /** The state that the array holds before round r of a pass. */
  function View(a: State, r: nat): State
    requires r <= 4
  {
    Lanes((x, y) requires IsLane(x, y) => a[Place(r, x, y)])
  }

  predicate Odd(a: bool, b: bool, c: bool, d: bool, e: bool) {
    a != (b != (c != (d != e)))
  }

  function Entry(v: seq<bool>, s: nat, b: nat, y: nat): bool
    requires |v| == 5
  {
    v[(s + y * b) % 5]
  }

  /** Five bits summed cyclically from s on, in steps of b. */
  lemma CyclicOrder(v: seq<bool>, s: nat, b: nat)
    requires |v| == 5 && s < 5 && 1 <= b <= 4
    ensures Odd(Entry(v, s, b, 0), Entry(v, s, b, 1), Entry(v, s, b, 2), Entry(v, s, b, 3), Entry(v, s, b, 4))
        <==> Odd(v[0], v[1], v[2], v[3], v[4])
  {
    if b == 1 {
      if s == 0 {} else if s == 1 {} else if s == 2 {} else if s == 3 {} else { assert s == 4; }
    } else if b == 2 {
      if s == 0 {} else if s == 1 {} else if s == 2 {} else if s == 3 {} else { assert s == 4; }
    } else if b == 3 {
      if s == 0 {} else if s == 1 {} else if s == 2 {} else if s == 3 {} else { assert s == 4; }
    } else {
      assert b == 4;
      if s == 0 {} else if s == 1 {} else if s == 2 {} else if s == 3 {} else { assert s == 4; }
    }
  }

  lemma ColumnBit(a: State, x: nat, z: nat)
    requires x < 5 && z < 64
    ensures var v := ColumnBits(a, x, z);
            Column(a, x)[z] == Odd(v[0], v[1], v[2], v[3], v[4])
  {
  }

  /** The column sums do not depend on the layout. */
  lemma ColumnOfView(a: State, r: nat, x: nat)
    requires r <= 4 && x < 5
    ensures Column(View(a, r), x) == Column(a, x)
  {
    forall z | 0 <= z < 64
      ensures Column(View(a, r), x)[z] == Column(a, x)[z]
    {
      ColumnOfViewBit(a, r, x, z);
    }
    SameWord(Column(View(a, r), x), Column(a, x));
  }

  lemma ColumnOfViewBit(a: State, r: nat, x: nat, z: nat)
    requires r <= 4 && x < 5 && z < 64
    ensures Column(View(a, r), x)[z] == Column(a, x)[z]
  {
    var c := ColumnBits(a, x, z);
    var v, s, b := View(a, r), PlaceRow(r, x, 0) % 5, Step(r);
    ColumnBit(v, x, z);
    ColumnBit(a, x, z);
    assert ColumnBits(v, x, z) == [v[x][z], v[x + 5][z], v[x + 10][z], v[x + 15][z], v[x + 20][z]];
    ViewBit(a, r, x, z, 0);
    ViewBit(a, r, x, z, 1);
    ViewBit(a, r, x, z, 2);
    ViewBit(a, r, x, z, 3);
    ViewBit(a, r, x, z, 4);
    CyclicOrder(c, s, b);
  }

  lemma ViewBit(a: State, r: nat, x: nat, z: nat, y: nat)
    requires r <= 4 && x < 5 && z < 64 && y < 5
    ensures View(a, r)[x + 5 * y][z] == Entry(ColumnBits(a, x, z), PlaceRow(r, x, 0) % 5, Step(r), y)
  {
    hide View, Place, PlaceRow, Step;
    ViewLane(a, r, x, y);
    PlaceByStep(r, x, y);
    ColumnEntry(a, x, z, (PlaceRow(r, x, 0) % 5 + y * Step(r)) % 5);
  }

  function ColumnBits(a: State, x: nat, z: nat): (v: seq<bool>)
    requires x < 5 && z < 64
    ensures |v| == 5
  {
    [a[x][z], a[x + 5][z], a[x + 10][z], a[x + 15][z], a[x + 20][z]]
  }

  lemma ColumnEntry(a: State, x: nat, z: nat, t: nat)
    requires x < 5 && t < 5 && z < 64
    ensures ColumnBits(a, x, z)[t] == a[x + 5 * t][z]
  {
  }

  lemma ViewLane(a: State, r: nat, x: nat, y: nat)
    requires r <= 4 && x < 5 && y < 5
    ensures View(a, r)[x + 5 * y] == a[Place(r, x, y)]
  {
    hide Place;
    assert IsLane(x, y);
    assert Lane(View(a, r), x, y) == a[Place(r, x, y)];
  }
}
