/**
 Reading what was written. When nothing follows the marker of a tagged pointer, Dec undoes Enc exactly
 on the readable values; when something does, in a struct written in full, it fails.
 */
module RlpRoundTrip {
  import opened Wrappers
  import opened Bytes
  import opened RlpOps

  lemma BasicRoundTrip(k: Basic, v: Val)
    requires FitsBasic(k, v)
    ensures DecBasic(k, EncBasic(k, v)) == Ok(if v.VBytes? then VBytes(false, v.s) else v)
  {
    if k.UintB? {
      ShortestRoundTrip(v.n);
      ShortestHasNoZero(v.n);
      ShortestLength(v.n, k.size);
    }
  }

  lemma BigRoundTrip(i: nat)
    ensures Canonical(Str(Shortest(i))) && BigEndian(Shortest(i)) == i
  {
  }

  /** The marker can be read as a value exactly when TakesMarker says so. */
  lemma {:induction false} TakesMarkerIff(op: Op, k: NilKind)
    ensures TakesMarker(op, k) <==> Dec(op, Marker(k)).Ok?
    decreases op
  {
    match op {
      case PtrOp(e, _, _) => TakesMarkerIff(e, k);
      case StructOp(z, fs, os) =>
        assert DecOptional(os, Cursor([], false), z) == Ok((z, Cursor([], false)));
      case _ =>
    }
  }

  /** Dec undoes Enc, up to Canon, on the readable values; on the others it fails. */
  lemma {:induction false} RoundTrip(op: Op, v: Val)
    requires Fits(op, v) && Enc(op, v).Ok? && Apart(op, v, false)
    ensures var back := Dec(op, Enc(op, v).value);
            && (back.Ok? <==> Readable(op, v))
            && (back.Ok? ==> back == Ok(Canon(op, v)))
    decreases op, 1
  {
    match op {
      case BasicOp(k, _) => BasicRoundTrip(k, v);
      case ByteArrayOp(_) =>
      case BigIntOp(p) =>
        if p && v == VNil {
          assert BigEndian([]) == 0;
        } else {
          BigRoundTrip(if p then v.to.i else v.i);
        }
      case PtrOp(e, nilOK, k) =>
        if v == VNil {
          TakesMarkerIff(e, k);
        } else if !(nilOK && Enc(e, v.to) == Ok(Marker(k))) {
          RoundTrip(e, v.to);
        }
      case StructOp(z, fs, os) => StructRoundTrip(op, v);
      case SliceOp(e) => AllRoundTrip(e, v.elems);
    }
  }

  lemma {:induction false} StructRoundTrip(op: Op, v: Val)
    requires op.StructOp? && Fits(op, v) && Enc(op, v).Ok? && Apart(op, v, false)
    ensures var back := Dec(op, Enc(op, v).value);
            && (back.Ok? <==> Readable(op, v))
            && (back.Ok? ==> back == Ok(Canon(op, v)))
    decreases op, 0
  {
    var vs, a, b := v.fields, EncFields(op.fields, v.fields).value, EncOptional(op.optional, v.fields).value;
    FieldsRoundTrip(op.fields, vs, b, op.zero);
    if FieldsReadable(op.fields, vs) {
      var us := CanonFields(op.fields, vs, op.zero);
      if b != [] {
        OptionalRoundTrip(op.optional, vs, us);
      }
    }
  }

  /** Behind the last of the items, of which more are left; with none left, its header may be held. */
  predicate Behind(c: Cursor, more: seq<Item>) {
    c == Cursor(more, false) || (more == [] && c.held && |c.items| == 1)
  }

  lemma {:induction false} FieldsRoundTrip(fs: Fields, vs: seq<Val>, more: seq<Item>, us: seq<Val>)
    requires FieldsFit(fs, vs) && EncFields(fs, vs).Ok?
    requires !Followed(fs, vs, more != []) && FieldsApart(fs, vs, false)
    ensures var back := DecFields(fs, Cursor(EncFields(fs, vs).value + more, false), us);
            && (back.Ok? <==> FieldsReadable(fs, vs))
            && (back.Ok? ==> back.value.0 == CanonFields(fs, vs, us) && Behind(back.value.1, more))
    decreases fs, 0
  {
    if fs == NoFields {
      assert [] + more == more;
    } else {
      var items := EncFields(fs, vs).value;
      RoundTrip(fs.op, vs[fs.index]);
      assert (items + more)[1..] == EncFields(fs.rest, vs).value + more;
      if !Marks(fs.op, vs[fs.index]) {
        FieldsRoundTrip(fs.rest, vs, more, Put(us, fs.index, Canon(fs.op, vs[fs.index])));
      }
    }
  }

  lemma {:induction false} OptionalRoundTrip(fs: Fields, vs: seq<Val>, us: seq<Val>)
    requires FieldsFit(fs, vs) && EncOptional(fs, vs).Ok?
    requires !OptionalFollowed(fs, vs) && OptionalApart(fs, vs, false)
    ensures var back := DecOptional(fs, Cursor(EncOptional(fs, vs).value, false), us);
            && (back.Ok? <==> OptionalReadable(fs, vs))
            && (back.Ok? ==> back.value.0 == CanonOptional(fs, vs, us) && Behind(back.value.1, []))
    decreases fs, 0
  {
    if AnyNonZero(fs, vs) {
      var items := EncOptional(fs, vs).value;
      RoundTrip(fs.op, vs[fs.index]);
      assert items[1..] == EncOptional(fs.rest, vs).value;
      if !Marks(fs.op, vs[fs.index]) {
        OptionalRoundTrip(fs.rest, vs, Put(us, fs.index, Canon(fs.op, vs[fs.index])));
      }
    }
  }

  lemma {:induction false} AllRoundTrip(op: Op, vs: seq<Val>)
    requires AllFit(op, vs) && EncAll(op, vs).Ok? && AllApart(op, vs, false)
    ensures |EncAll(op, vs).value| == |vs|
    ensures var back := DecAll(op, EncAll(op, vs).value);
            && (back.Ok? <==> AllReadable(op, vs))
            && (back.Ok? ==> back == Ok(CanonAll(op, vs)))
    decreases op, |vs| + 1
  {
    if vs != [] {
      var n := |vs| - 1;
      var items := EncAll(op, vs).value;
      AllRoundTrip(op, vs[..n]);
      RoundTrip(op, vs[n]);
      assert items[..n] == EncAll(op, vs[..n]).value;
    }
  }

  // ---------- when writing succeeds ----------

  /** No big.Int that is written is negative. */
  predicate NoNegative(op: Op, v: Val)
    requires Fits(op, v)
    decreases op, 0
  {
    match op
    case BasicOp(_, _) => true
    case ByteArrayOp(_) => true
    case BigIntOp(p) => if !p then v.i >= 0 else v == VNil || v.to.i >= 0
    case PtrOp(e, _, _) => v == VNil || NoNegative(e, v.to)
    case StructOp(_, fs, os) => FieldsNoNegative(fs, v.fields) && OptionalNoNegative(os, v.fields)
    case SliceOp(e) => AllNoNegative(e, v.elems)
  }

  predicate FieldsNoNegative(fs: Fields, vs: seq<Val>)
    requires FieldsFit(fs, vs)
    decreases fs, 0
  {
    fs == NoFields || (NoNegative(fs.op, vs[fs.index]) && FieldsNoNegative(fs.rest, vs))
  }

  predicate OptionalNoNegative(fs: Fields, vs: seq<Val>)
    requires FieldsFit(fs, vs)
    decreases fs, 0
  {
    !AnyNonZero(fs, vs) || (NoNegative(fs.op, vs[fs.index]) && OptionalNoNegative(fs.rest, vs))
  }

  predicate AllNoNegative(op: Op, vs: seq<Val>)
    requires AllFit(op, vs)
    decreases op, |vs| + 1
  {
    vs == [] || (AllNoNegative(op, vs[..|vs| - 1]) && NoNegative(op, vs[|vs| - 1]))
  }

  lemma {:induction false} EncOkIff(op: Op, v: Val)
    requires Fits(op, v)
    ensures Enc(op, v).Ok? <==> NoNegative(op, v)
    ensures Enc(op, v).Err? ==> Enc(op, v) == Err(ErrNegativeBigInt)
    decreases op, 0
  {
    match op {
      case PtrOp(e, _, _) =>
        if v != VNil {
          EncOkIff(e, v.to);
        }
      case StructOp(_, fs, os) =>
        EncFieldsOkIff(fs, v.fields);
        EncOptionalOkIff(os, v.fields);
      case SliceOp(e) => EncAllOkIff(e, v.elems);
      case _ =>
    }
  }

  lemma {:induction false} EncFieldsOkIff(fs: Fields, vs: seq<Val>)
    requires FieldsFit(fs, vs)
    ensures EncFields(fs, vs).Ok? <==> FieldsNoNegative(fs, vs)
    ensures EncFields(fs, vs).Err? ==> EncFields(fs, vs) == Err(ErrNegativeBigInt)
    decreases fs, 0
  {
    if fs != NoFields {
      EncOkIff(fs.op, vs[fs.index]);
      EncFieldsOkIff(fs.rest, vs);
    }
  }

  lemma {:induction false} EncOptionalOkIff(fs: Fields, vs: seq<Val>)
    requires FieldsFit(fs, vs)
    ensures EncOptional(fs, vs).Ok? <==> OptionalNoNegative(fs, vs)
    ensures EncOptional(fs, vs).Err? ==> EncOptional(fs, vs) == Err(ErrNegativeBigInt)
    decreases fs, 0
  {
    if AnyNonZero(fs, vs) {
      EncOkIff(fs.op, vs[fs.index]);
      EncOptionalOkIff(fs.rest, vs);
    }
  }

  lemma {:induction false} EncAllOkIff(op: Op, vs: seq<Val>)
    requires AllFit(op, vs)
    ensures EncAll(op, vs).Ok? <==> AllNoNegative(op, vs)
    ensures EncAll(op, vs).Err? ==> EncAll(op, vs) == Err(ErrNegativeBigInt)
    decreases op, |vs| + 1
  {
    if vs != [] {
      EncAllOkIff(op, vs[..|vs| - 1]);
      EncOkIff(op, vs[|vs| - 1]);
    }
  }

  // ---------- how far Canon changes a value ----------

  function Indices(fs: Fields): set<nat> {
    if fs == NoFields then {} else {fs.index} + Indices(fs.rest)
  }

  /** The shape of the trees that makeOp builds. */
  predicate WellFormed(op: Op)
    decreases op, 0
  {
    match op
    case PtrOp(e, _, _) => WellFormed(e)
    case StructOp(z, fs, os) => FieldsWellFormed(fs, z) && FieldsWellFormed(os, z) && Indices(fs) !! Indices(os)
    case SliceOp(e) => WellFormed(e) && !MayKeep(e)
    case _ => true
  }

  predicate FieldsWellFormed(fs: Fields, z: seq<Val>)
    decreases fs, 0
  {
    match fs
    case NoFields => true
    case Field(i, zero, op, rest) =>
      && i < |z| && z[i] == zero && Fits(op, zero) && !NonZero(zero, zero) && WellFormed(op)
      && i !in Indices(rest) && FieldsWellFormed(rest, z)
  }

  /**
   u is v up to: nil or empty slices; a tagged pointer to a value written as the nil marker having
   become nil; an untagged nil pointer having become a pointer to what its marker reads as; and
   struct fields that take no part in the encoding, which u has zero.
   */
  predicate Alike(op: Op, v: Val, u: Val)
    requires Fits(op, v)
    decreases op, 0
  {
    u == v ||
    match op
    case BasicOp(_, _) => v.VBytes? && u.VBytes? && u.s == v.s
    case ByteArrayOp(_) => false
    case BigIntOp(p) => p && v == VNil && u == VPtr(VBig(0))
    case PtrOp(e, nilOK, k) =>
      if v == VNil then !nilOK && u.VPtr? && Dec(e, Marker(k)) == Ok(u.to)
      else if u == VNil then nilOK && Enc(e, v.to) == Ok(Marker(k))
      else u.VPtr? && Alike(e, v.to, u.to)
    case StructOp(z, fs, os) =>
      && u.VStruct? && |u.fields| == |v.fields|
      && FieldsAlike(fs, v.fields, u.fields) && FieldsAlike(os, v.fields, u.fields)
      && forall i :: 0 <= i < |z| && i !in Indices(fs) && i !in Indices(os) ==> u.fields[i] == z[i]
    case SliceOp(e) => u.VSlice? && |u.elems| == |v.elems| && AllAlike(e, v.elems, u.elems)
  }

  predicate FieldsAlike(fs: Fields, vs: seq<Val>, us: seq<Val>)
    requires FieldsFit(fs, vs) && |us| == |vs|
    decreases fs, 0
  {
    fs == NoFields || (Alike(fs.op, vs[fs.index], us[fs.index]) && FieldsAlike(fs.rest, vs, us))
  }

  predicate AllAlike(op: Op, vs: seq<Val>, us: seq<Val>)
    requires AllFit(op, vs) && |us| == |vs|
    decreases op, |vs| + 1
  {
    vs == [] || (AllAlike(op, vs[..|vs| - 1], us[..|vs| - 1]) && Alike(op, vs[|vs| - 1], us[|vs| - 1]))
  }

  lemma {:induction false} CanonAlike(op: Op, v: Val)
    requires WellFormed(op) && Fits(op, v) && Readable(op, v)
    ensures Alike(op, v, Canon(op, v))
    decreases op, 1
  {
    match op {
      case PtrOp(e, nilOK, k) =>
        if v == VNil {
          TakesMarkerIff(e, k);
        } else if !(nilOK && Enc(e, v.to) == Ok(Marker(k))) {
          CanonAlike(e, v.to);
        }
      case StructOp(z, fs, os) => StructAlike(op, v);
      case SliceOp(e) => AllCanonAlike(e, v.elems);
      case _ =>
    }
  }

  lemma {:induction false} StructAlike(op: Op, v: Val)
    requires op.StructOp? && WellFormed(op) && Fits(op, v) && Readable(op, v)
    ensures Alike(op, v, Canon(op, v))
    decreases op, 0
  {
    var z, fs, os, vs := op.zero, op.fields, op.optional, v.fields;
    var us := CanonFields(fs, vs, z);
    var r := CanonOptional(os, vs, us);
    FieldsCanonAlike(fs, vs, z, z);
    OthersAreZero(os, vs, us, z);
    OptionalCanonAlike(os, vs, us, z);
    FieldsStayAlike(fs, vs, us, r);
  }

  lemma {:induction false} FieldsStayAlike(fs: Fields, vs: seq<Val>, us: seq<Val>, r: seq<Val>)
    requires FieldsFit(fs, vs) && |us| == |r| == |vs| && FieldsAlike(fs, vs, us)
    requires forall i :: 0 <= i < |us| && i in Indices(fs) ==> r[i] == us[i]
    ensures FieldsAlike(fs, vs, r)
    decreases fs
  {
    if fs != NoFields {
      FieldsStayAlike(fs.rest, vs, us, r);
    }
  }

  /** us still has zero at every field of os. */
  lemma {:induction false} OthersAreZero(os: Fields, vs: seq<Val>, us: seq<Val>, z: seq<Val>)
    requires FieldsWellFormed(os, z) && |us| == |z|
    requires forall i :: 0 <= i < |us| && i in Indices(os) ==> us[i] == z[i]
    ensures ZeroAt(os, us)
    decreases os
  {
    if os != NoFields {
      OthersAreZero(os.rest, vs, us, z);
    }
  }

  predicate ZeroAt(fs: Fields, us: seq<Val>) {
    fs == NoFields || (fs.index < |us| && us[fs.index] == fs.zero && ZeroAt(fs.rest, us))
  }

  lemma {:induction false} FieldsCanonAlike(fs: Fields, vs: seq<Val>, us: seq<Val>, z: seq<Val>)
    requires FieldsWellFormed(fs, z) && FieldsFit(fs, vs) && FieldsReadable(fs, vs) && |us| == |vs| == |z|
    ensures var r := CanonFields(fs, vs, us);
            && FieldsAlike(fs, vs, r)
            && forall i :: 0 <= i < |us| && i !in Indices(fs) ==> r[i] == us[i]
    decreases fs, 0
  {
    if fs != NoFields {
      CanonAlike(fs.op, vs[fs.index]);
      FieldsCanonAlike(fs.rest, vs, Put(us, fs.index, Canon(fs.op, vs[fs.index])), z);
    }
  }

  lemma {:induction false} OptionalCanonAlike(fs: Fields, vs: seq<Val>, us: seq<Val>, z: seq<Val>)
    requires FieldsWellFormed(fs, z) && FieldsFit(fs, vs) && OptionalReadable(fs, vs) && |us| == |vs| == |z|
    requires ZeroAt(fs, us)
    ensures var r := CanonOptional(fs, vs, us);
            && FieldsAlike(fs, vs, r)
            && forall i :: 0 <= i < |us| && i !in Indices(fs) ==> r[i] == us[i]
    decreases fs, 0
  {
    if AnyNonZero(fs, vs) {
      var u := Canon(fs.op, vs[fs.index]);
      CanonAlike(fs.op, vs[fs.index]);
      ZeroAtPut(fs.rest, us, fs.index, u);
      OptionalCanonAlike(fs.rest, vs, Put(us, fs.index, u), z);
    } else {
      OmittedAlike(fs, vs, us, z);
    }
  }

  lemma {:induction false} ZeroAtPut(fs: Fields, us: seq<Val>, i: nat, u: Val)
    requires ZeroAt(fs, us) && i !in Indices(fs)
    ensures ZeroAt(fs, Put(us, i, u))
    decreases fs
  {
    if fs != NoFields {
      ZeroAtPut(fs.rest, us, i, u);
    }
  }

  /** An omitted field is zero, or an empty slice. */
  lemma {:induction false} OmittedAlike(fs: Fields, vs: seq<Val>, us: seq<Val>, z: seq<Val>)
    requires FieldsWellFormed(fs, z) && FieldsFit(fs, vs) && !AnyNonZero(fs, vs) && |us| == |vs| && ZeroAt(fs, us)
    ensures FieldsAlike(fs, vs, us)
    decreases fs
  {
    if fs != NoFields {
      OmittedAlike(fs.rest, vs, us, z);
    }
  }

  lemma {:induction false} AllCanonAlike(op: Op, vs: seq<Val>)
    requires WellFormed(op) && AllFit(op, vs) && AllReadable(op, vs)
    ensures AllAlike(op, vs, CanonAll(op, vs))
    decreases op, |vs| + 1
  {
    if vs != [] {
      var n := |vs| - 1;
      AllCanonAlike(op, vs[..n]);
      CanonAlike(op, vs[n]);
      assert CanonAll(op, vs)[..n] == CanonAll(op, vs[..n]);
    }
  }
}
