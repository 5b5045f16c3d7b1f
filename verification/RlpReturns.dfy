/**
 The round trip, exactly: for which values reading what was written gives the value back, to be written
 as the same item again.
 */
module RlpReturns {
  import opened Wrappers
  import opened RlpCanonical
  import opened RlpMarkers
  import opened RlpOps
  import opened RlpRoundTrip

  /**
   A value comes back and is written as the same item exactly when it is readable and what it is
   written as is tight.
   */
  lemma ReturnsIff(op: Op, v: Val)
    requires WellFormed(op) && Fits(op, v) && Enc(op, v).Ok?
    ensures var item := Enc(op, v).value;
            var back := Dec(op, item);
            (back.Ok? && Fits(op, back.value) && Alike(op, v, back.value) && Enc(op, back.value) == Ok(item))
            <==> Readable(op, v) && Tight(op, item)
  {
    hide Tight, Dec, Enc, Alike, Readable;
    var item := Enc(op, v).value;
    if Tight(op, item) {
      TightReturns(op, v);
    }
    if Dec(op, item).Ok? {
      EncOfDec(op, item);
    }
  }

  lemma {:induction false} TightReturns(op: Op, v: Val)
    requires WellFormed(op) && Fits(op, v) && Enc(op, v).Ok? && Tight(op, Enc(op, v).value)
    ensures var back := Dec(op, Enc(op, v).value);
            && (back.Ok? <==> Readable(op, v))
            && (back.Ok? ==> Alike(op, v, back.value))
    decreases op, 1
  {
    match op {
      case PtrOp(e, nilOK, k) =>
        if v == VNil {
          TakesMarkerIff(e, k);
        } else if !(nilOK && Enc(e, v.to) == Ok(Marker(k))) {
          TightReturns(e, v.to);
        }
      case StructOp(_, _, _) => StructReturns(op, v);
      case SliceOp(e) => AllReturn(e, v.elems);
      case _ => RoundTrip(op, v);
    }
  }

  lemma {:induction false} AllReturn(op: Op, vs: seq<Val>)
    requires WellFormed(op) && AllFit(op, vs) && EncAll(op, vs).Ok? && AllTight(op, EncAll(op, vs).value)
    ensures |EncAll(op, vs).value| == |vs|
    ensures var back := DecAll(op, EncAll(op, vs).value);
            && (back.Ok? <==> AllReadable(op, vs))
            && (back.Ok? ==> |back.value| == |vs| && AllAlike(op, vs, back.value))
    decreases op, |vs| + 2
  {
    if vs != [] {
      var n := |vs| - 1;
      var items := EncAll(op, vs).value;
      assert items[..|items| - 1] == EncAll(op, vs[..n]).value && items[|items| - 1] == Enc(op, vs[n]).value;
      AllReturn(op, vs[..n]);
      TightReturns(op, vs[n]);
      var back := DecAll(op, items);
      if back.Ok? {
        assert back.value[..n] == DecAll(op, items[..n]).value;
      }
    }
  }

  /** The fields have come back, and nothing else has changed. */
  ghost predicate Returned(fs: Fields, vs: seq<Val>, us: seq<Val>, r: seq<Val>)
    requires FieldsFit(fs, vs)
  {
    && |r| == |us| == |vs| && FieldsAlike(fs, vs, r)
    && forall i :: 0 <= i < |us| && i !in Indices(fs) ==> r[i] == us[i]
  }

  lemma OneReturned(fs: Fields, vs: seq<Val>, us: seq<Val>, u: Val, r: seq<Val>, z: seq<Val>)
    requires fs != NoFields && FieldsWellFormed(fs, z) && FieldsFit(fs, vs) && |us| == |vs| == |z|
    requires Alike(fs.op, vs[fs.index], u) && Returned(fs.rest, vs, Put(us, fs.index, u), r)
    ensures Returned(fs, vs, us, r)
  {
    hide Alike;
    assert r[fs.index] == u;
  }

  /** The last n items of a list; with the next field done, the last n - 1 of them. */
  lemma NextOwn(op: Op, c: Cursor, n: int)
    requires 0 < n <= |c.items|
    ensures var c' := After(op, c);
            n - 1 <= |c'.items| && c'.items[|c'.items| - (n - 1)..] == c.items[|c.items| - n..][1..]
    ensures c.items[|c.items| - n..][0] == c.items[|c.items| - n]
  {
  }

  predicate Remain(fs: Fields, c: Cursor, n: int, rest: seq<Item>) {
    var m := n - Length(fs);
    0 <= m <= |rest| && n <= |c.items| && rest[|rest| - m..] == c.items[|c.items| - n..][n - m..]
  }

  lemma OneRemains(fs: Fields, c: Cursor, n: int, rest: seq<Item>)
    requires fs != NoFields && 0 < n <= |c.items| && Remain(fs.rest, After(fs.op, c), n - 1, rest)
    ensures Remain(fs, c, n, rest)
  {
    NextOwn(fs.op, c, n);
    var own, m := c.items[|c.items| - n..], n - Length(fs);
    assert own[1..][n - 1 - m..] == own[n - m..];
  }

  /** The required fields read their own items, so they come back as far as those do. */
  lemma {:induction false} FieldsReturn(fs: Fields, vs: seq<Val>, c: Cursor, n: int, us: seq<Val>, z: seq<Val>)
    requires FieldsWellFormed(fs, z) && FieldsFit(fs, vs) && EncFields(fs, vs).Ok? && |us| == |vs| == |z|
    requires IsStart(EncFields(fs, vs).value, c, n) && FieldsTight(fs, c, n)
    ensures var back := DecFields(fs, c, us);
            && (back.Ok? <==> FieldsReadable(fs, vs))
            && (back.Ok? ==> Returned(fs, vs, us, back.value.0) && back.value.1 == AfterFields(fs, c))
    ensures Remain(fs, c, n, AfterFields(fs, c).items)
    decreases fs, 0
  {
    hide Tight, Enc, Dec, After, Alike, Readable, Returned, Remain, IsStart;
    if fs == NoFields {
      NoneReturned(vs, us, c, n);
    } else {
      var items, c', back := EncFields(fs, vs).value, After(fs.op, c), Dec(fs.op, c.items[0]);
      NextOwn(fs.op, c, n);
      StartTail(items, c, n, c');
      assert items[1..] == EncFields(fs.rest, vs).value;
      TightReturns(fs.op, vs[fs.index]);
      FieldsReturn(fs.rest, vs, c', n - 1, if back.Ok? then Put(us, fs.index, back.value) else us, z);
      OneRemains(fs, c, n, AfterFields(fs, c).items);
      if back.Ok? && FieldsReadable(fs, vs) {
        OneReturned(fs, vs, us, back.value, DecFields(fs, c, us).value.0, z);
      }
    }
  }

  lemma NoneReturned(vs: seq<Val>, us: seq<Val>, c: Cursor, n: int)
    requires |us| == |vs| && IsStart([], c, n)
    ensures Returned(NoFields, vs, us, us) && Remain(NoFields, c, n, c.items)
  {
  }

  lemma StartTail(items: seq<Item>, c: Cursor, n: int, c': Cursor)
    requires items != [] && IsStart(items, c, n) && n - 1 <= |c'.items|
    requires c'.items[|c'.items| - (n - 1)..] == c.items[|c.items| - n..][1..]
    ensures items[0] == c.items[|c.items| - n] && IsStart(items[1..], c', n - 1)
  {
    var own := c.items[|c.items| - n..];
    assert own[1..][..|items| - 1] == own[..|items|][1..];
  }

  lemma {:induction false} OptionalReturn(fs: Fields, vs: seq<Val>, c: Cursor, n: int, us: seq<Val>, z: seq<Val>)
    requires FieldsWellFormed(fs, z) && FieldsFit(fs, vs) && EncOptional(fs, vs).Ok? && |us| == |vs| == |z|
    requires ZeroAt(fs, us) && 0 <= n <= |c.items| && EncOptional(fs, vs).value == c.items[|c.items| - n..]
    requires OptionalTight(fs, c, n)
    ensures var back := DecOptional(fs, c, us);
            && (back.Ok? <==> OptionalReadable(fs, vs))
            && (back.Ok? ==> Returned(fs, vs, us, back.value.0) && !More(back.value.1))
    decreases fs, 1
  {
    hide Tight, Enc, Dec, After, Alike, Readable, Returned, Fits, OptionalReadable, OptionalTight, EncOptional;
    if !More(c) {
      NoneWritten(fs, vs, c, n, us, z);
    } else {
      HeadReturns(fs, vs, c, n, z);
      var back, c', m := Dec(fs.op, c.items[0]), After(fs.op, c), if n == 0 then 0 else n - 1;
      if back.Ok? {
        var us' := Put(us, fs.index, back.value);
        ZeroAtPut(fs.rest, us, fs.index, back.value);
        OptionalReturn(fs.rest, vs, c', m, us', z);
        var r := DecOptional(fs.rest, c', us');
        if r.Ok? {
          OneReturned(fs, vs, us, back.value, r.value.0, z);
        }
      }
    }
  }

  /** The first optional field comes back, and the others can go on from behind it. */
  lemma {:induction false} HeadReturns(fs: Fields, vs: seq<Val>, c: Cursor, n: int, z: seq<Val>)
    requires FieldsWellFormed(fs, z) && FieldsFit(fs, vs) && EncOptional(fs, vs).Ok?
    requires 0 <= n <= |c.items| && EncOptional(fs, vs).value == c.items[|c.items| - n..]
    requires More(c) && OptionalTight(fs, c, n)
    ensures fs != NoFields
    ensures var back, c', m := Dec(fs.op, c.items[0]), After(fs.op, c), if n == 0 then 0 else n - 1;
            && (OptionalReadable(fs, vs) <==> back.Ok? && OptionalReadable(fs.rest, vs))
            && (back.Ok? ==> Alike(fs.op, vs[fs.index], back.value))
            && OptionalTight(fs.rest, c', m) && m <= |c'.items|
            && EncOptional(fs.rest, vs) == Ok(c'.items[|c'.items| - m..])
    decreases fs, 0
  {
    hide Tight, Enc, Dec, After, Alike, Readable, Fits, EncOptional;
    if n == 0 {
      EncOfDec(fs.op, c.items[0]);
      HeadZero(fs, vs, c);
      var c' := After(fs.op, c);
      assert c'.items[|c'.items|..] == [];
    } else {
      HeadWritten(fs, vs, c, n);
      TightReturns(fs.op, vs[fs.index]);
    }
  }

  lemma NoneWritten(fs: Fields, vs: seq<Val>, c: Cursor, n: int, us: seq<Val>, z: seq<Val>)
    requires FieldsWellFormed(fs, z) && FieldsFit(fs, vs) && |us| == |vs| == |z| && ZeroAt(fs, us)
    requires EncOptional(fs, vs).Ok? && 0 <= n <= |c.items| && EncOptional(fs, vs).value == c.items[|c.items| - n..]
    requires !More(c) && OptionalTight(fs, c, n)
    ensures Returned(fs, vs, us, us) && OptionalReadable(fs, vs)
  {
    OmittedAlike(fs, vs, us, z);
  }

  /** With every item taken as some field's own, an optional field that still reads one reads a zero. */
  lemma HeadZero(fs: Fields, vs: seq<Val>, c: Cursor)
    requires fs != NoFields && FieldsFit(fs, vs) && More(c) && OptionalTight(fs, c, 0)
    requires Rewrites(fs.op, c.items[0], Dec(fs.op, c.items[0]).value)
    requires EncOptional(fs, vs).Ok? && EncOptional(fs, vs).value == []
    ensures Dec(fs.op, c.items[0]).Ok? && Alike(fs.op, vs[fs.index], Dec(fs.op, c.items[0]).value)
    ensures !AnyNonZero(fs, vs) && EncOptional(fs.rest, vs) == Ok([]) && OptionalTight(fs.rest, After(fs.op, c), 0)
  {
    hide Tight, Enc, Dec, After, Alike, Fits, NonZero;
    ZerosAlike(fs.op, fs.zero, vs[fs.index], Dec(fs.op, c.items[0]).value);
  }

  /** Otherwise it reads its own item. */
  lemma HeadWritten(fs: Fields, vs: seq<Val>, c: Cursor, n: int)
    requires FieldsFit(fs, vs) && More(c) && 0 < n <= |c.items| && OptionalTight(fs, c, n)
    requires EncOptional(fs, vs).Ok? && EncOptional(fs, vs).value == c.items[|c.items| - n..]
    ensures AnyNonZero(fs, vs) && Enc(fs.op, vs[fs.index]) == Ok(c.items[0]) && Tight(fs.op, c.items[0])
    ensures var c' := After(fs.op, c);
            && n - 1 <= |c'.items| && OptionalTight(fs.rest, c', n - 1)
            && EncOptional(fs.rest, vs) == Ok(c'.items[|c'.items| - (n - 1)..])
  {
    hide Tight, Enc, Dec, After, Alike, Fits, NonZero;
    NextOwn(fs.op, c, n);
    var items := EncOptional(fs, vs).value;
    assert items[1..] == EncOptional(fs.rest, vs).value;
  }

  /** Two values that nonZeroCheck calls zero differ in a nil or empty slice at most. */
  lemma ZerosAlike(op: Op, zero: Val, v: Val, u: Val)
    requires Fits(op, v) && Fits(op, u) && !NonZero(zero, v) && !NonZero(zero, u)
    ensures Alike(op, v, u)
  {
  }

  lemma RequiredReturned(op: Op, vs: seq<Val>, us: seq<Val>)
    requires op.StructOp? && WellFormed(op) && FieldsFit(op.fields, vs) && Returned(op.fields, vs, op.zero, us)
    ensures ZeroAt(op.optional, us) && |us| == |vs|
  {
    OthersAreZero(op.optional, vs, us, op.zero);
  }

  lemma BothReturned(op: Op, vs: seq<Val>, us: seq<Val>, r: seq<Val>)
    requires op.StructOp? && WellFormed(op) && Fits(op, VStruct(vs))
    requires Returned(op.fields, vs, op.zero, us) && Returned(op.optional, vs, us, r)
    ensures Alike(op, VStruct(vs), VStruct(r))
  {
    FieldsStayAlike(op.fields, vs, us, r);
  }

  lemma {:induction false} StructReturns(op: Op, v: Val)
    requires op.StructOp? && WellFormed(op) && Fits(op, v) && Enc(op, v).Ok? && Tight(op, Enc(op, v).value)
    ensures var back := Dec(op, Enc(op, v).value);
            && (back.Ok? <==> Readable(op, v))
            && (back.Ok? ==> Alike(op, v, back.value))
    decreases op, 0
  {
    hide FieldsTight, OptionalTight, EncFields, EncOptional, DecFields, DecOptional, ZeroAt, AfterFields, Returned, Alike,
         FieldsReadable, OptionalReadable, FieldsFit, FieldsWellFormed;
    var z, fs, os, vs := op.zero, op.fields, op.optional, v.fields;
    var a, b := EncFields(fs, vs).value, EncOptional(os, vs).value;
    var c, n := Cursor(a + b, false), |a + b|;
    EncFieldsCount(fs, vs);
    assert c.items[0..] == a + b && (a + b)[..|a|] == a && (a + b)[|a|..] == b;
    FieldsReturn(fs, vs, c, n, z, z);
    var back := DecFields(fs, c, z);
    if back.Ok? {
      var us := back.value.0;
      RequiredReturned(op, vs, us);
      OptionalReturn(os, vs, back.value.1, n - Length(fs), us, z);
      var r := DecOptional(os, back.value.1, us);
      if r.Ok? {
        BothReturned(op, vs, us, r.value.0);
      }
    }
  }
}
