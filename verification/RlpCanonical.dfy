/**
 The other direction of the RLP round trip: what the decoder accepts is a value of the type, and
 writing it again gives the same item, unless some list ended in optional fields that are zero, or the
 header of a marker was handed on to a field for which something else was written.
 */
module RlpCanonical {
  import opened Wrappers
  import opened Bytes
  import opened Powers
  import opened RlpOps
  import opened RlpRoundTrip

  /**
   Every field reads an item equal to its own, the one at its place in the list, and no list ends in an
   optional field that reads as zero. Own and read item differ in place once a header was handed on.
   */
  predicate Tight(op: Op, item: Item)
    decreases op, 0
  {
    match op
    case PtrOp(e, nilOK, k) => (nilOK && item == Marker(k)) || Tight(e, item)
    case StructOp(_, fs, os) =>
      && item.List?
      && var start, n := Cursor(item.items, false), |item.items|;
         FieldsTight(fs, start, n) && OptionalTight(os, AfterFields(fs, start), n - Length(fs))
    case SliceOp(e) => item.List? && AllTight(e, item.items)
    case _ => true
  }

  /** The last n items are those of the fields still to come. */
  predicate FieldsTight(fs: Fields, c: Cursor, n: int)
    decreases fs, 0
  {
    fs == NoFields
    || (Own(c, n) && Tight(fs.op, c.items[0]) && FieldsTight(fs.rest, After(fs.op, c), n - 1))
  }

  /** There is an item for the next field, and it equals the one that the field reads. */
  predicate Own(c: Cursor, n: int) {
    0 < n <= |c.items| && c.items[|c.items| - n] == c.items[0]
  }

  predicate OptionalTight(fs: Fields, c: Cursor, n: int)
    decreases fs, 0
  {
    if !More(c) then n == 0
    else if fs == NoFields then false
    else if n == 0 then ReadsZero(fs.op, fs.zero, c.items[0]) && OptionalTight(fs.rest, After(fs.op, c), 0)
    else
      && Own(c, n) && Tight(fs.op, c.items[0]) && OptionalTight(fs.rest, After(fs.op, c), n - 1)
      && (n == 1 ==> ReadsNonZero(fs.op, fs.zero, c.items[0]))
  }

  /** Where the required fields leave the list. */
  function AfterFields(fs: Fields, c: Cursor): Cursor {
    if fs == NoFields || c.items == [] then c else AfterFields(fs.rest, After(fs.op, c))
  }

  predicate ReadsNonZero(op: Op, zero: Val, item: Item) {
    Dec(op, item).Ok? && NonZero(zero, Dec(op, item).value)
  }

  predicate ReadsZero(op: Op, zero: Val, item: Item) {
    Dec(op, item).Ok? && !NonZero(zero, Dec(op, item).value)
  }

  predicate AllTight(op: Op, items: seq<Item>)
    decreases op, |items| + 1
  {
    items == [] || (AllTight(op, items[..|items| - 1]) && Tight(op, items[|items| - 1]))
  }

  // ---------- numbers ----------

  lemma {:induction false} BigEndianBound(b: seq<Byte>)
    ensures BigEndian(b) < Pow(256, |b|)
  {
    if b != [] {
      BigEndianBound(b[..|b| - 1]);
    }
  }

  /** Bytes without a leading zero are the shortest for their number. */
  lemma {:induction false} ShortestOfBytes(b: seq<Byte>)
    requires b != [] ==> b[0] != 0
    ensures Shortest(BigEndian(b)) == b
    ensures b != [] ==> BigEndian(b) > 0
    decreases |b|
  {
    if b != [] {
      var n := |b| - 1;
      ShortestOfBytes(b[..n]);
      var v := BigEndian(b[..n]);
      assert n == 0 ==> b[..n] == [] && v == 0;
      assert (v * 256 + b[n]) / 256 == v && (v * 256 + b[n]) % 256 == b[n];
      assert b == b[..n] + [b[n]];
    }
  }

  // ---------- the theorem ----------

  /** What is read has the operation's type, and is written as the same item exactly when that is tight. */
  ghost predicate Rewrites(op: Op, item: Item, v: Val) {
    && Fits(op, v) && Enc(op, v).Ok?
    && (Enc(op, v) == Ok(item) <==> Tight(op, item))
  }

  lemma {:induction false} EncOfDec(op: Op, item: Item)
    requires WellFormed(op) && Dec(op, item).Ok?
    ensures Rewrites(op, item, Dec(op, item).value)
    decreases op, 1
  {
    match op {
      case BasicOp(_, _) => LeafEncOfDec(op, item);
      case ByteArrayOp(_) => LeafEncOfDec(op, item);
      case BigIntOp(_) => LeafEncOfDec(op, item);
      case PtrOp(e, nilOK, k) =>
        if !(nilOK && item == Marker(k)) {
          EncOfDec(e, item);
        }
      case StructOp(_, _, _) => StructEncOfDec(op, item);
      case SliceOp(e) => AllEncOfDec(e, item.items);
    }
  }

  lemma LeafEncOfDec(op: Op, item: Item)
    requires (op.BasicOp? || op.ByteArrayOp? || op.BigIntOp?) && Dec(op, item).Ok?
    ensures Rewrites(op, item, Dec(op, item).value)
  {
    hide Rewrites;
    match op
    case BigIntOp(p) => BigEncOfDec(p, item);
    case ByteArrayOp(n) => OtherEncOfDec(op, item);
    case BasicOp(k, conv) =>
      match k
      case UintB(size) => UintEncOfDec(size, conv, item);
      case _ => OtherEncOfDec(op, item);
  }

  lemma OtherEncOfDec(op: Op, item: Item)
    requires op.ByteArrayOp? || (op.BasicOp? && !op.kind.UintB?)
    requires Dec(op, item).Ok?
    ensures Rewrites(op, item, Dec(op, item).value)
  {
    hide BigEndian, Pow, Shortest;
  }

  lemma UintEncOfDec(size: nat, conv: bool, item: Item)
    requires Dec(BasicOp(UintB(size), conv), item).Ok?
    ensures Rewrites(BasicOp(UintB(size), conv), item, Dec(BasicOp(UintB(size), conv), item).value)
  {
    hide BigEndian, Pow, Shortest;
    NumberOfItem(item, size);
  }

  lemma BigEncOfDec(pointer: bool, item: Item)
    requires Dec(BigIntOp(pointer), item).Ok?
    ensures Rewrites(BigIntOp(pointer), item, Dec(BigIntOp(pointer), item).value)
  {
    hide BigEndian, Pow, Shortest;
    assert Canonical(item);
    NumberOfItem(item, |item.bytes|);
  }

  lemma NumberOfItem(item: Item, size: nat)
    requires Canonical(item) && |item.bytes| <= size
    ensures BigEndian(item.bytes) < Pow(256, size) && Str(Shortest(BigEndian(item.bytes))) == item
  {
    ShortestOfBytes(item.bytes);
    BigEndianBound(item.bytes);
    PowGrows(256, |item.bytes|, size);
  }

  lemma {:induction false} AllEncOfDec(op: Op, items: seq<Item>)
    requires WellFormed(op) && DecAll(op, items).Ok?
    ensures var vs := DecAll(op, items).value;
            && |vs| == |items| && AllFit(op, vs) && EncAll(op, vs).Ok? && |EncAll(op, vs).value| == |vs|
            && (EncAll(op, vs) == Ok(items) <==> AllTight(op, items))
    decreases op, |items| + 2
  {
    hide Enc, Dec, Tight, Fits;
    if items != [] {
      var n := |items| - 1;
      AllEncOfDec(op, items[..n]);
      EncOfDec(op, items[n]);
      var vs := DecAll(op, items).value;
      assert vs[..n] == DecAll(op, items[..n]).value;
      var a, b := EncAll(op, vs[..n]).value, Enc(op, vs[n]).value;
      assert items == items[..n] + [items[n]];
      assert (a + [b])[..n] == a && (a + [b])[n] == b;
    }
  }

  ghost predicate Agree(us: seq<Val>, us': seq<Val>, changed: set<nat>) {
    |us| == |us'| && forall i: nat :: i < |us| && i !in changed ==> us[i] == us'[i]
  }

  /** Every item before the last n is the same marker; a held header is one of those. */
  ghost predicate Handed(c: Cursor, n: int) {
    && 0 <= n <= |c.items| && (c.held ==> n < |c.items|)
    && (n < |c.items| ==> IsMarker(c.items[0]))
    && forall i :: 0 <= i < |c.items| - n ==> c.items[i] == c.items[0]
  }

  predicate IsMarker(item: Item) {
    item == Str([]) || item == List([])
  }

  lemma HandedOn(op: Op, c: Cursor, n: int)
    requires Handed(c, n) && (n == 0 || Own(c, n)) && c.items != []
    ensures var m := if n == 0 then 0 else n - 1;
            && Handed(After(op, c), m) && m <= |After(op, c).items|
            && After(op, c).items[|After(op, c).items| - m..] == c.items[|c.items| - n..][n - m..]
  {
    KeptIsMarker(op, c.items[0]);
  }

  lemma {:induction false} KeptIsMarker(op: Op, item: Item)
    ensures Keeps(op, item) ==> IsMarker(item)
    decreases op
  {
    if op.PtrOp? && !(op.nilOK && item == Marker(op.nilValue)) {
      KeptIsMarker(op.elem, item);
    }
  }

  /** A marker that is read is written again as that marker. */
  lemma {:induction false} MarkerTight(op: Op, item: Item)
    requires Dec(op, item).Ok? && IsMarker(item)
    ensures Tight(op, item)
    decreases op
  {
    match op {
      case PtrOp(e, nilOK, k) =>
        if !(nilOK && item == Marker(k)) {
          MarkerTight(e, item);
        }
      case _ =>
    }
  }

  /** What a field is written as is its own item exactly when that is what it read, and tight. */
  lemma OwnIff(op: Op, v: Val, c: Cursor, n: int)
    requires Handed(c, n) && 0 < n && Dec(op, c.items[0]) == Ok(v) && Rewrites(op, c.items[0], v)
    ensures n <= |c.items|
    ensures Enc(op, v) == Ok(c.items[|c.items| - n]) <==> Own(c, n) && Tight(op, c.items[0])
  {
    if n < |c.items| {
      MarkerTight(op, c.items[0]);
    }
  }

  /** The items are the first of the last n. */
  predicate IsStart(items: seq<Item>, c: Cursor, n: int) {
    0 <= n <= |c.items| && |items| <= n && items == c.items[|c.items| - n..][..|items|]
  }

  ghost predicate FieldsRewrite(fs: Fields, c: Cursor, n: int, items: seq<Item>, rest: Cursor) {
    Handed(c, n) ==>
      && (IsStart(items, c, n) <==> FieldsTight(fs, c, n))
      && (FieldsTight(fs, c, n) ==> LeftOver(fs, c, n, rest))
  }

  ghost predicate LeftOver(fs: Fields, c: Cursor, n: int, rest: Cursor) {
    var m := n - Length(fs);
    0 <= n <= |c.items| && 0 <= m && Handed(rest, m) && rest.items[|rest.items| - m..] == c.items[|c.items| - n..][n - m..]
  }

  /** The required fields: their values fit, and are written as their own items exactly when those are tight. */
  lemma {:induction false} FieldsEncOfDec(fs: Fields, c: Cursor, n: int, us0: seq<Val>, z: seq<Val>)
    requires FieldsWellFormed(fs, z) && |us0| == |z| && DecFields(fs, c, us0).Ok?
    ensures var (us, rest) := DecFields(fs, c, us0).value;
            && Agree(us0, us, Indices(fs)) && FieldsFit(fs, us) && EncFields(fs, us).Ok?
            && |EncFields(fs, us).value| == Length(fs) && rest == AfterFields(fs, c)
            && FieldsRewrite(fs, c, n, EncFields(fs, us).value, rest)
    decreases fs, 0
  {
    hide FieldsRewrite, Tight, Enc, Dec, After;
    if fs == NoFields {
      NoneRewrite(c, n);
    } else {
      var v := Dec(fs.op, c.items[0]).value;
      EncOfDec(fs.op, c.items[0]);
      FieldsEncOfDec(fs.rest, After(fs.op, c), n - 1, Put(us0, fs.index, v), z);
      var (us, rest) := DecFields(fs, c, us0).value;
      assert us[fs.index] == v;
      OneRewrites(fs, v, c, n, EncFields(fs.rest, us).value, rest);
    }
  }

  lemma NoneRewrite(c: Cursor, n: int)
    ensures FieldsRewrite(NoFields, c, n, [], c)
  {
  }

  lemma OneRewrites(fs: Fields, v: Val, c: Cursor, n: int, b: seq<Item>, rest: Cursor)
    requires fs != NoFields && c.items != [] && Dec(fs.op, c.items[0]) == Ok(v) && Rewrites(fs.op, c.items[0], v)
    requires FieldsRewrite(fs.rest, After(fs.op, c), n - 1, b, rest)
    ensures FieldsRewrite(fs, c, n, [Enc(fs.op, v).value] + b, rest)
  {
    hide Tight, Enc, Dec, After, Keeps, LeftOver, Handed, IsStart, Own, Fits;
    if Handed(c, n) {
      if n <= 0 {
        NoneStarts([Enc(fs.op, v).value] + b, c, n);
      } else {
        OwnIff(fs.op, v, c, n);
        if Own(c, n) {
          HandedOn(fs.op, c, n);
          OneLeftOver(fs, c, n, rest);
        }
        ConsStart(Enc(fs.op, v).value, b, c, n, After(fs.op, c));
      }
    }
  }

  lemma OneLeftOver(fs: Fields, c: Cursor, n: int, rest: Cursor)
    requires fs != NoFields && 0 < n <= |c.items| && n - 1 <= |After(fs.op, c).items|
    requires var c' := After(fs.op, c); c'.items[|c'.items| - (n - 1)..] == c.items[|c.items| - n..][1..]
    ensures LeftOver(fs.rest, After(fs.op, c), n - 1, rest) ==> LeftOver(fs, c, n, rest)
  {
    hide After, Handed;
    var own, m := c.items[|c.items| - n..], n - Length(fs);
    if 0 <= m {
      DropTwice(own, n - 1 - m);
      assert n - 1 - Length(fs.rest) == m;
    }
  }

  lemma DropTwice(s: seq<Item>, k: nat)
    requires k < |s|
    ensures s[1..][k..] == s[k + 1..]
  {
  }

  lemma NoneStarts(items: seq<Item>, c: Cursor, n: int)
    requires items != [] && n <= 0
    ensures !IsStart(items, c, n) && !Own(c, n)
  {
  }

  lemma ConsStart(a: Item, b: seq<Item>, c: Cursor, n: int, c': Cursor)
    requires 0 < n <= |c.items|
    requires Own(c, n) ==> n - 1 <= |c'.items| && c'.items[|c'.items| - (n - 1)..] == c.items[|c.items| - n..][1..]
    ensures Own(c, n) ==> (IsStart([a] + b, c, n) <==> a == c.items[|c.items| - n] && IsStart(b, c', n - 1))
    ensures IsStart([a] + b, c, n) ==> a == c.items[|c.items| - n]
  {
    var own := c.items[|c.items| - n..];
    assert own[0] == c.items[|c.items| - n];
    assert ([a] + b)[0] == a && ([a] + b)[1..] == b;
    if |b| + 1 <= n {
      assert own[..|b| + 1][1..] == own[1..][..|b|];
      assert own[..|b| + 1] == [own[0]] + own[1..][..|b|];
    }
  }

  lemma {:induction false} SameFields(fs: Fields, us: seq<Val>, us': seq<Val>, changed: set<nat>)
    requires FieldsFit(fs, us) && Agree(us, us', changed) && Indices(fs) !! changed
    ensures FieldsFit(fs, us') && EncFields(fs, us') == EncFields(fs, us)
    decreases fs
  {
    if fs != NoFields {
      SameFields(fs.rest, us, us', changed);
    }
  }

  /** Zero fields fit and are not written. */
  lemma {:induction false} ZeroFields(fs: Fields, us: seq<Val>, z: seq<Val>)
    requires FieldsWellFormed(fs, z) && ZeroAt(fs, us)
    ensures FieldsFit(fs, us) && !AnyNonZero(fs, us)
    decreases fs
  {
    if fs != NoFields {
      ZeroFields(fs.rest, us, z);
    }
  }

  lemma {:induction false} OptionalEncOfDec(fs: Fields, c: Cursor, n: int, us0: seq<Val>, z: seq<Val>)
    requires FieldsWellFormed(fs, z) && |us0| == |z| && ZeroAt(fs, us0)
    requires DecOptional(fs, c, us0).Ok? && !More(DecOptional(fs, c, us0).value.1)
    ensures var us := DecOptional(fs, c, us0).value.0;
            && Agree(us0, us, Indices(fs)) && FieldsFit(fs, us) && EncOptional(fs, us).Ok?
            && (Handed(c, n) ==> (EncOptional(fs, us).value == c.items[|c.items| - n..] <==> OptionalTight(fs, c, n)))
    decreases fs, 0
  {
    if fs == NoFields || !More(c) {
      ZeroFields(fs, us0, z);
    } else {
      var v := Dec(fs.op, c.items[0]).value;
      var us1 := Put(us0, fs.index, v);
      EncOfDec(fs.op, c.items[0]);
      ZeroAtPut(fs.rest, us0, fs.index, v);
      OptionalEncOfDec(fs.rest, After(fs.op, c), if n == 0 then 0 else n - 1, us1, z);
      var us := DecOptional(fs, c, us0).value.0;
      assert us[fs.index] == v;
      if Handed(c, n) {
        OptionalHead(fs, c, n, us);
      }
    }
  }

  /** An optional field that was read, and those after it. */
  lemma OptionalHead(fs: Fields, c: Cursor, n: int, us: seq<Val>)
    requires fs != NoFields && More(c) && FieldsFit(fs, us) && Dec(fs.op, c.items[0]) == Ok(us[fs.index])
    requires Handed(c, n) && Rewrites(fs.op, c.items[0], us[fs.index]) && EncOptional(fs.rest, us).Ok?
    requires var m, c' := if n == 0 then 0 else n - 1, After(fs.op, c);
             Handed(c', m) ==>
               (EncOptional(fs.rest, us).value == c'.items[|c'.items| - m..] <==> OptionalTight(fs.rest, c', m))
    ensures EncOptional(fs, us).Ok?
    ensures EncOptional(fs, us).value == c.items[|c.items| - n..] <==> OptionalTight(fs, c, n)
  {
    hide Dec, Enc, Tight, NonZero;
    var a, b, own := Enc(fs.op, us[fs.index]).value, EncOptional(fs.rest, us).value, c.items[|c.items| - n..];
    assert ([a] + b)[0] == a && ([a] + b)[1..] == b;
    if n == 0 {
      HandedOn(fs.op, c, n);
    } else {
      assert own == [own[0]] + own[1..];
      OwnIff(fs.op, us[fs.index], c, n);
      if Own(c, n) {
        HandedOn(fs.op, c, n);
      }
    }
  }

  /** The optional fields are still zero when the required ones have been read. */
  lemma OthersUntouched(fs: Fields, os: Fields, z: seq<Val>, us: seq<Val>)
    requires FieldsWellFormed(os, z) && Agree(z, us, Indices(fs)) && Indices(fs) !! Indices(os)
    ensures ZeroAt(os, us) && |us| == |z|
  {
    OthersAreZero(os, us, us, z);
  }

  lemma {:induction false} StructEncOfDec(op: Op, item: Item)
    requires op.StructOp? && WellFormed(op) && Dec(op, item).Ok?
    ensures Rewrites(op, item, Dec(op, item).value)
    decreases op, 0
  {
    hide FieldsTight, OptionalTight, FieldsFit, EncFields, EncOptional, DecFields, DecOptional, Indices, ZeroAt, AfterFields,
         FieldsWellFormed, Agree, FieldsAlike, NonZero;
    var z, fs, os, items := op.zero, op.fields, op.optional, item.items;
    var c, n := Cursor(items, false), |items|;
    var (us, rest) := DecFields(fs, c, z).value;
    FieldsEncOfDec(fs, c, n, z, z);
    OthersUntouched(fs, os, z, us);
    OptionalEncOfDec(os, rest, n - Length(fs), us, z);
    var us' := DecOptional(os, rest, us).value.0;
    SameFields(fs, us, us', Indices(os));
    assert Handed(c, n) && items[0..] == items;
    ListsMatch(EncFields(fs, us).value, EncOptional(os, us').value, items, Length(fs));
  }

  lemma ListsMatch(a: seq<Item>, b: seq<Item>, items: seq<Item>, n: nat)
    requires |a| == n
    ensures a + b == items <==> n <= |items| && a == items[..n] && b == items[n..]
  {
    assert (a + b)[..n] == a && (a + b)[n..] == b;
    if n <= |items| {
      assert items == items[..n] + items[n..];
    }
  }
}
