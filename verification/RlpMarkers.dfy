/**
 What happens when an item follows the marker of a tagged pointer. The nil branch of the generated
 decoder reads no value, so the stream hands the header it holds to the next field as well, and every
 later field reads an item too early.
 */
module RlpMarkers {
  import opened Wrappers
  import opened Bytes
  import opened Powers
  import opened RlpOps
  import opened RlpRoundTrip

  lemma {:induction false} ApartIsLax(op: Op, v: Val)
    requires Fits(op, v) && Apart(op, v, false)
    ensures Apart(op, v, true)
    decreases op, 0
  {
    match op {
      case PtrOp(e, nilOK, k) =>
        if v != VNil && !(nilOK && Enc(e, v.to) == Ok(Marker(k))) {
          ApartIsLax(e, v.to);
        }
      case StructOp(_, fs, os) =>
        FieldsApartLax(fs, v.fields);
        OptionalApartLax(os, v.fields);
      case SliceOp(e) => AllApartLax(e, v.elems);
      case _ =>
    }
  }

  lemma {:induction false} FieldsApartLax(fs: Fields, vs: seq<Val>)
    requires FieldsFit(fs, vs) && FieldsApart(fs, vs, false)
    ensures FieldsApart(fs, vs, true)
    decreases fs, 0
  {
    if fs != NoFields {
      ApartIsLax(fs.op, vs[fs.index]);
      FieldsApartLax(fs.rest, vs);
    }
  }

  lemma {:induction false} OptionalApartLax(fs: Fields, vs: seq<Val>)
    requires FieldsFit(fs, vs) && OptionalApart(fs, vs, false)
    ensures OptionalApart(fs, vs, true)
    decreases fs, 0
  {
    if AnyNonZero(fs, vs) {
      ApartIsLax(fs.op, vs[fs.index]);
      OptionalApartLax(fs.rest, vs);
    }
  }

  lemma {:induction false} AllApartLax(op: Op, vs: seq<Val>)
    requires AllFit(op, vs) && AllApart(op, vs, false)
    ensures AllApart(op, vs, true)
    decreases op, |vs| + 1
  {
    if vs != [] {
      AllApartLax(op, vs[..|vs| - 1]);
      ApartIsLax(op, vs[|vs| - 1]);
    }
  }

  // ---------- a list written in full ----------

  /** More is left than n further fields can take. */
  predicate Lagging(c: Cursor, n: nat) {
    |c.items| > n && (n == 0 ==> More(c))
  }

  lemma FieldLags(op: Op, c: Cursor, n: nat)
    requires Lagging(c, n + 1)
    ensures c.items != [] && Lagging(After(op, c), n)
  {
  }

  /** Once behind, the required fields stay behind. */
  lemma {:induction false} FieldsLag(fs: Fields, c: Cursor, us: seq<Val>, n: nat)
    requires Lagging(c, Length(fs) + n)
    ensures DecFields(fs, c, us).Ok? ==> Lagging(DecFields(fs, c, us).value.1, n)
    decreases fs
  {
    if fs != NoFields {
      FieldLags(fs.op, c, Length(fs.rest) + n);
      if Dec(fs.op, c.items[0]).Ok? {
        FieldsLag(fs.rest, After(fs.op, c), Put(us, fs.index, Dec(fs.op, c.items[0]).value), n);
      }
    }
  }

  /** So do the optional fields, and the list does not end. */
  lemma {:induction false} OptionalLag(fs: Fields, c: Cursor, us: seq<Val>)
    requires Lagging(c, Length(fs))
    ensures DecOptional(fs, c, us).Ok? ==> More(DecOptional(fs, c, us).value.1)
    decreases fs
  {
    if fs != NoFields {
      FieldLags(fs.op, c, Length(fs.rest));
      if Dec(fs.op, c.items[0]).Ok? {
        OptionalLag(fs.rest, After(fs.op, c), Put(us, fs.index, Dec(fs.op, c.items[0]).value));
      }
    }
  }

  lemma {:induction false} EncFieldsCount(fs: Fields, vs: seq<Val>)
    requires FieldsFit(fs, vs) && EncFields(fs, vs).Ok?
    ensures |EncFields(fs, vs).value| == Length(fs)
    decreases fs
  {
    if fs != NoFields {
      EncFieldsCount(fs.rest, vs);
    }
  }

  lemma {:induction false} AllWrittenCount(fs: Fields, vs: seq<Val>)
    requires FieldsFit(fs, vs) && EncOptional(fs, vs).Ok? && AllWritten(fs, vs)
    ensures |EncOptional(fs, vs).value| == Length(fs)
    decreases fs
  {
    if fs != NoFields {
      AllWrittenCount(fs.rest, vs);
    }
  }

  /**
   A marker followed by another item, in a list written in full, is an error: the decoder meets the
   end of the struct with an item left, or fails before.
   */
  lemma {:induction false} FollowedFails(op: Op, v: Val)
    requires Fits(op, v) && Enc(op, v).Ok? && Apart(op, v, true) && !Apart(op, v, false)
    ensures Dec(op, Enc(op, v).value).Err?
    decreases op, 1
  {
    match op {
      case PtrOp(e, _, _) => FollowedFails(e, v.to);
      case StructOp(_, _, _) => StructFails(op, v);
      case SliceOp(e) => AllFollowedFails(e, v.elems);
      case _ =>
    }
  }

  lemma {:induction false} AllFollowedFails(op: Op, vs: seq<Val>)
    requires AllFit(op, vs) && EncAll(op, vs).Ok? && AllApart(op, vs, true) && !AllApart(op, vs, false)
    ensures DecAll(op, EncAll(op, vs).value).Err?
    decreases op, |vs| + 2
  {
    var n := |vs| - 1;
    var items, last := EncAll(op, vs[..n]).value, Enc(op, vs[n]).value;
    assert (items + [last])[..|items|] == items;
    if AllApart(op, vs[..n], false) {
      FollowedFails(op, vs[n]);
    } else {
      AllFollowedFails(op, vs[..n]);
    }
  }

  lemma {:induction false} StructFails(op: Op, v: Val)
    requires op.StructOp? && Fits(op, v) && Enc(op, v).Ok? && Apart(op, v, true) && !Apart(op, v, false)
    ensures Dec(op, Enc(op, v).value).Err?
    decreases op, 0
  {
    var fs, os, vs, z := op.fields, op.optional, v.fields, op.zero;
    var a, b := EncFields(fs, vs).value, EncOptional(os, vs).value;
    var back := DecFields(fs, Cursor(a + b, false), z);
    if Followed(fs, vs, b != []) || !FieldsApart(fs, vs, false) {
      if AllWritten(os, vs) {
        AllWrittenCount(os, vs);
      }
      FieldsFollowed(fs, vs, b, z);
      if back.Ok? {
        OptionalLag(os, back.value.1, back.value.0);
      }
    } else {
      FieldsRoundTrip(fs, vs, b, z);
      if back.Ok? {
        if AllWritten(os, vs) {
          AllWrittenCount(os, vs);
        }
        OptionalFollowedFails(os, vs, back.value.0);
      }
    }
  }

  lemma {:induction false} FieldsFollowed(fs: Fields, vs: seq<Val>, more: seq<Item>, us: seq<Val>)
    requires FieldsFit(fs, vs) && EncFields(fs, vs).Ok? && FieldsApart(fs, vs, true)
    requires Followed(fs, vs, more != []) || !FieldsApart(fs, vs, false)
    ensures var back := DecFields(fs, Cursor(EncFields(fs, vs).value + more, false), us);
            back.Ok? ==> Followed(fs, vs, more != []) && Lagging(back.value.1, |more|)
    decreases fs, 0
  {
    var op, v, items := fs.op, vs[fs.index], EncFields(fs, vs).value + more;
    if !Apart(op, v, false) {
      FollowedFails(op, v);
    } else if Dec(op, items[0]).Ok? {
      var us' := Put(us, fs.index, Dec(op, items[0]).value);
      if Marks(op, v) && (fs.rest != NoFields || more != []) {
        EncFieldsCount(fs, vs);
        FieldsLag(fs.rest, After(op, Cursor(items, false)), us', |more|);
      } else if !Marks(op, v) {
        assert items[1..] == EncFields(fs.rest, vs).value + more;
        FieldsFollowed(fs.rest, vs, more, us');
      }
    }
  }

  lemma {:induction false} OptionalFollowedFails(fs: Fields, vs: seq<Val>, us: seq<Val>)
    requires FieldsFit(fs, vs) && EncOptional(fs, vs).Ok? && OptionalApart(fs, vs, true)
    requires OptionalFollowed(fs, vs) || !OptionalApart(fs, vs, false)
    requires OptionalFollowed(fs, vs) ==> |EncOptional(fs, vs).value| == Length(fs)
    ensures var back := DecOptional(fs, Cursor(EncOptional(fs, vs).value, false), us);
            back.Ok? ==> More(back.value.1)
    decreases fs, 0
  {
    var op, v, items := fs.op, vs[fs.index], EncOptional(fs, vs).value;
    if !Apart(op, v, false) {
      FollowedFails(op, v);
    } else if Dec(op, items[0]).Ok? {
      var us' := Put(us, fs.index, Dec(op, items[0]).value);
      if Marks(op, v) && AnyNonZero(fs.rest, vs) {
        OptionalLag(fs.rest, After(op, Cursor(items, false)), us');
      } else if !Marks(op, v) {
        assert items[1..] == EncOptional(fs.rest, vs).value;
        OptionalFollowedFails(fs.rest, vs, us');
      }
    }
  }

  // ---------- three structs ----------

  /** *uint8 with the tag nilString, and uint8. */
  function NilUint(): Op {
    PtrOp(Uint(), true, NilString)
  }

  function Uint(): Op {
    BasicOp(UintB(1), false)
  }

  /** What reading a uint8 gives for the marker and for a byte that is not 0. */
  lemma UintItems(n: nat)
    requires n < 256
    ensures FitsBasic(UintB(1), VUint(n))
    ensures var item := if n == 0 then Str([]) else Str([n]);
            Enc(Uint(), VUint(n)) == Ok(item) && Dec(Uint(), item) == Ok(VUint(n))
  {
    assert Pow(256, 0) == 1 && Pow(256, 1) == 256;
    if n > 0 {
      assert Shortest(n / 256) == [] && [] + [n] == [n];
      assert [n][..0] == [] && BigEndian([]) == 0;
      assert BigEndian([n]) == n && Canonical(Str([n]));
      assert DecBasic(UintB(1), Str([n])) == Ok(VUint(n));
    } else {
      assert DecBasic(UintB(1), Str([])) == Ok(VUint(0));
    }
  }

  /** struct { X *uint8 `nilString`; Y uint8 }: with X nil, the decoder reads Y early and finds an item left. */
  lemma NilThenFieldFails(y: nat)
    requires y < 256
    ensures var y1 := Field(1, VUint(0), Uint(), NoFields);
            var op, v := StructOp([VNil, VUint(0)], Field(0, VNil, NilUint(), y1), NoFields), VStruct([VNil, VUint(y)]);
            && Fits(op, v) && Readable(op, v) && Enc(op, v).Ok? && Dec(op, Enc(op, v).value).Err?
  {
    hide Dec, DecBasic, Shortest, BigEndian, Pow;
    UintItems(y);
    var y1 := Field(1, VUint(0), Uint(), NoFields);
    var op, v := StructOp([VNil, VUint(0)], Field(0, VNil, NilUint(), y1), NoFields), VStruct([VNil, VUint(y)]);
    assert Marks(NilUint(), VNil) && Followed(op.fields, v.fields, false);
    assert Apart(Uint(), VUint(y), true) && FieldsApart(y1, v.fields, true);
    FollowedFails(op, v);
  }

  /** struct { X *uint8 `nilString`; Y uint8; Z uint8 `optional` }: with X nil and Z 0, Y is read as Z. */
  lemma NilThenOptionalMoves(y: nat)
    requires 0 < y < 256
    ensures var z2, y1 := Field(2, VUint(0), Uint(), NoFields), Field(1, VUint(0), Uint(), NoFields);
            var op := StructOp([VNil, VUint(0), VUint(0)], Field(0, VNil, NilUint(), y1), z2);
            var v := VStruct([VNil, VUint(y), VUint(0)]);
            && Fits(op, v) && Readable(op, v) && Enc(op, v).Ok?
            && Dec(op, Enc(op, v).value) == Ok(VStruct([VNil, VUint(0), VUint(y)]))
  {
    hide EncBasic, DecBasic, Shortest, BigEndian, Pow;
    UintItems(y);
    UintItems(0);
    var zero, vs := [VNil, VUint(0), VUint(0)], [VNil, VUint(y), VUint(0)];
    var z2, y1 := Field(2, VUint(0), Uint(), NoFields), Field(1, VUint(0), Uint(), NoFields);
    var s, t := Str([]), Str([y]);
    assert EncFields(NoFields, vs) == Ok([]) && [t] + [] == [t];
    assert EncFields(y1, vs) == Ok([t]) && EncOptional(z2, vs) == Ok([]);
    assert Put(zero, 1, VUint(0)) == zero && Put(zero, 2, VUint(y)) == [VNil, VUint(0), VUint(y)];
    assert DecFields(y1, Cursor([s, t], true), zero) == Ok((zero, Cursor([t], false)));
    assert Put(zero, 0, VNil) == zero;
    assert DecFields(Field(0, VNil, NilUint(), y1), Cursor([s, t], false), zero) == Ok((zero, Cursor([t], false)));
    assert DecOptional(NoFields, Cursor([], false), Put(zero, 2, VUint(y))).Ok?;
    assert DecOptional(z2, Cursor([t], false), zero) == Ok((Put(zero, 2, VUint(y)), Cursor([], false)));
  }

  /**
   struct { X *uint8 `nilString`; Y *uint8 `optional`; Z uint8 `optional` }: X nil, Y pointing to 0 and Z 0
   come back all the same, since Y is read from X's marker and Z from Y's item.
   */
  lemma NilThenZeroReturns()
    ensures var ptr := PtrOp(Uint(), false, NilString);
            var z2 := Field(2, VUint(0), Uint(), NoFields);
            var op := StructOp([VNil, VNil, VUint(0)], Field(0, VNil, NilUint(), NoFields), Field(1, VNil, ptr, z2));
            var v := VStruct([VNil, VPtr(VUint(0)), VUint(0)]);
            && Fits(op, v) && Enc(op, v).Ok? && !Apart(op, v, true) && Dec(op, Enc(op, v).value) == Ok(v)
  {
    hide EncBasic, DecBasic, Shortest, BigEndian, Pow;
    UintItems(0);
    var ptr, zero, vs := PtrOp(Uint(), false, NilString), [VNil, VNil, VUint(0)], [VNil, VPtr(VUint(0)), VUint(0)];
    var z2 := Field(2, VUint(0), Uint(), NoFields);
    var x0, y1, s := Field(0, VNil, NilUint(), NoFields), Field(1, VNil, ptr, z2), Str([]);
    assert EncOptional(z2, vs) == Ok([]);
    assert Enc(ptr, vs[1]) == Ok(s) && Dec(ptr, s) == Ok(vs[1]);
    assert EncFields(NoFields, vs) == Ok([]) && [s] + [] == [s];
    assert EncOptional(y1, vs) == Ok([s]) && EncFields(x0, vs) == Ok([s]);
    assert Marks(NilUint(), VNil) && AnyNonZero(y1, vs) && !AnyNonZero(z2, vs);
    assert Put(zero, 0, VNil) == zero && Put(zero, 1, vs[1]) == vs && Put(vs, 2, VUint(0)) == vs;
    assert DecFields(NoFields, Cursor([s, s], true), zero).Ok?;
    assert DecFields(x0, Cursor([s, s], false), zero) == Ok((zero, Cursor([s, s], true)));
    assert DecOptional(NoFields, Cursor([], false), vs).Ok?;
    assert DecOptional(z2, Cursor([s], false), vs) == Ok((vs, Cursor([], false)));
    assert DecOptional(y1, Cursor([s, s], true), zero) == Ok((vs, Cursor([], false)));
  }
}
