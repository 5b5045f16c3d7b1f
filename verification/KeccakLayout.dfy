/**
 Where keccakF1600 keeps lane (x, y) of the state between the rounds of one pass: column x
 never moves, and within a column the rows are permuted a little further by each round.
 */
module KeccakLayout {
  import ModArith

  /** The row of the array in which lane (x, y) is kept before round r, up to multiples of 5. */
  function PlaceRow(r: nat, x: nat, y: nat): (t: nat)
    requires r <= 4 && x < 5 && y < 5
    ensures t < 30
  {
    match r
    case 0 => y
    case 1 => x + 2 * y
    case 2 => 3 * x + 4 * y
    case 3 => 2 * x + 3 * y
    case 4 => y
  }

  /** n % 5, by subtraction. */
  function Mod5(n: nat): (t: nat)
    requires n < 30
    ensures t < 5
  {
    if n < 5 then n else if n < 10 then n - 5 else if n < 15 then n - 10
    else if n < 20 then n - 15 else if n < 25 then n - 20 else n - 25
  }

  lemma Mod5Is(n: nat)
    requires n < 30
    ensures Mod5(n) == n % 5
  {
  }

  function Place(r: nat, x: nat, y: nat): (i: nat)
    requires r <= 4 && x < 5 && y < 5
    ensures i < 25 && x <= i
  {
    x + 5 * Mod5(PlaceRow(r, x, y))
  }

  /** Before every round lane (x, y) is in column x. */
  lemma PlaceInColumn(r: nat, x: nat, y: nat)
    requires r <= 4 && x < 5 && y < 5
    ensures Place(r, x, y) % 5 == x && Place(r, x, y) / 5 == PlaceRow(r, x, y) % 5
  {
    Mod5Is(PlaceRow(r, x, y));
  }

  /** Before the first round and after the fourth, lane (x, y) is at x + 5y. */
  lemma PlaceAtEnds(x: nat, y: nat)
    requires x < 5 && y < 5
    ensures Place(0, x, y) == x + 5 * y && Place(4, x, y) == x + 5 * y
  {
  }

  lemma SameRow(r: nat, x: nat, y: nat, y': nat)
    requires r <= 4 && x < 5 && y < 5 && y' < 5
    requires Mod5(PlaceRow(r, x, y)) == Mod5(PlaceRow(r, x, y'))
    ensures y == y'
  {
  }

  lemma SamePlace(x: nat, t: nat, x': nat, t': nat)
    requires x < 5 && x' < 5 && x + 5 * t == x' + 5 * t'
    ensures x == x' && t == t'
  {
  }

  lemma PlaceInjective(r: nat, x: nat, y: nat, x': nat, y': nat)
    requires r <= 4 && x < 5 && y < 5 && x' < 5 && y' < 5 && Place(r, x, y) == Place(r, x', y')
    ensures x == x' && y == y'
  {
    SamePlace(x, Mod5(PlaceRow(r, x, y)), x', Mod5(PlaceRow(r, x', y')));
    SameRow(r, x, y, y');
  }

  lemma SmallMod5(m: nat)
    requires m < 5
    ensures Mod5(m) == m
  {
  }

  /** The lane that row y of round r takes from column c is where row y's lane c goes. */
  lemma PlaceShifts(r: nat, c: nat, y: nat)
    requires r < 4 && c < 5 && y < 5
    ensures Place(r + 1, c, y) == Place(r, c, (c + 2 * y) % 5)
  {
    var k, m := (c + 2 * y) / 5, (c + 2 * y) % 5;
    if r > 0 {
      var n := RowShift(r, c, y, k, m);
      ModArith.ModShift(PlaceRow(r + 1, c, y), n, 5);
      Mod5Is(PlaceRow(r, c, m));
      Mod5Is(PlaceRow(r + 1, c, y));
    } else {
      Mod5Is(c + 2 * y);
      SmallMod5(m);
    }
  }

  lemma RowShift(r: nat, c: nat, y: nat, k: nat, m: nat) returns (n: int)
    requires 0 < r < 4 && c < 5 && y < 5 && m < 5 && c + 2 * y == 5 * k + m
    ensures PlaceRow(r, c, m) == PlaceRow(r + 1, c, y) + 5 * n
  {
    n := if r == 1 then -2 * k else if r == 2 then c + y - 4 * k else c + y - 3 * k;
  }

  /** The steps in which a round's layout runs through the rows of a column. */
  function Step(r: nat): (b: nat)
    requires r <= 4
    ensures 1 <= b <= 4
  {
    match r case 0 => 1 case 1 => 2 case 2 => 4 case 3 => 3 case 4 => 1
  }

  lemma PlaceByStep(r: nat, x: nat, y: nat)
    requires r <= 4 && x < 5 && y < 5
    ensures var s := PlaceRow(r, x, 0) % 5;
            Place(r, x, y) == x + 5 * ((s + y * Step(r)) % 5)
  {
    var s, k := PlaceRow(r, x, 0) % 5, PlaceRow(r, x, 0) / 5;
    assert PlaceRow(r, x, y) == s + y * Step(r) + 5 * k;
    ModArith.ModShift(s + y * Step(r), k, 5);
    Mod5Is(PlaceRow(r, x, y));
  }

  /** Five distinct places. */
  predicate IsRow(p: seq<nat>) {
    && |p| == 5
    && (forall i :: 0 <= i < 5 ==> p[i] < 25)
    && (forall i, j :: 0 <= i < j < 5 ==> p[i] != p[j])
  }

  /** The places of row y in round r, as the text lists them. */
  function RowPlaces(r: nat, y: nat): (p: seq<nat>)
    requires r < 4 && y < 5
    ensures IsRow(p)
  {
    match r
    case 0 => Round1Places(y)
    case 1 => Round2Places(y)
    case 2 => Round3Places(y)
    case 3 => Round4Places(y)
  }

  function Round1Places(y: nat): (p: seq<nat>)
    requires y < 5
    ensures IsRow(p)
  {
    match y
    case 0 => [0, 6, 12, 18, 24]
    case 1 => [10, 16, 22, 3, 9]
    case 2 => [20, 1, 7, 13, 19]
    case 3 => [5, 11, 17, 23, 4]
    case 4 => [15, 21, 2, 8, 14]
  }

  function Round2Places(y: nat): (p: seq<nat>)
    requires y < 5
    ensures IsRow(p)
  {
    match y
    case 0 => [0, 16, 7, 23, 14]
    case 1 => [20, 11, 2, 18, 9]
    case 2 => [15, 6, 22, 13, 4]
    case 3 => [10, 1, 17, 8, 24]
    case 4 => [5, 21, 12, 3, 19]
  }

  function Round3Places(y: nat): (p: seq<nat>)
    requires y < 5
    ensures IsRow(p)
  {
    match y
    case 0 => [0, 11, 22, 8, 19]
    case 1 => [15, 1, 12, 23, 9]
    case 2 => [5, 16, 2, 13, 24]
    case 3 => [20, 6, 17, 3, 14]
    case 4 => [10, 21, 7, 18, 4]
  }

  function Round4Places(y: nat): (p: seq<nat>)
    requires y < 5
    ensures IsRow(p)
  {
    match y
    case 0 => [0, 1, 2, 3, 4]
    case 1 => [5, 6, 7, 8, 9]
    case 2 => [10, 11, 12, 13, 14]
    case 3 => [15, 16, 17, 18, 19]
    case 4 => [20, 21, 22, 23, 24]
  }

  /** The listed places are those of the layout that the round leaves. */
  lemma RowPlaceAt(r: nat, y: nat, i: nat)
    requires r < 4 && y < 5 && i < 5
    ensures RowPlaces(r, y)[i] == Place(r + 1, i, y)
  {
    hide IsRow;
    if r == 0 { RowPlaceInRound1(y, i); }
    else if r == 1 { RowPlaceInRound2(y, i); }
    else if r == 2 { RowPlaceInRound3(y, i); }
    else { RowPlaceInRound4(y, i); }
  }

  lemma RowPlaceInRound1(y: nat, i: nat)
    requires y < 5 && i < 5
    ensures Round1Places(y)[i] == Place(1, i, y)
  {
  }

  lemma RowPlaceInRound2(y: nat, i: nat)
    requires y < 5 && i < 5
    ensures Round2Places(y)[i] == Place(2, i, y)
  {
  }

  lemma RowPlaceInRound3(y: nat, i: nat)
    requires y < 5 && i < 5
    ensures Round3Places(y)[i] == Place(3, i, y)
  {
    hide IsRow;
    assert i == 0 || i == 1 || i == 2 || i == 3 || i == 4;
    if y == 0 {
    } else if y == 1 {
    } else if y == 2 {
    } else if y == 3 {
    } else {
      assert y == 4;
    }
  }

  lemma RowPlaceInRound4(y: nat, i: nat)
    requires y < 5 && i < 5
    ensures Round4Places(y)[i] == Place(4, i, y)
  {
  }
}
