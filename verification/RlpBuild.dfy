/**
 makeOp of rlp/rlpgen/gen.go, from types to operation trees, and the theorem about the whole
 generator: the generated decoder undoes the generated encoder.
 */
module RlpBuild {
  import opened Wrappers
  import opened Powers
  import opened RlpOps
  import opened RlpFields
  import opened RlpCanonical
  import opened RlpMarkers
  import opened RlpReturns
  import opened RlpRoundTrip
  import W = RlpWriter
  import R = RlpReader

  datatype BuildError = BadStruct | Unhandled | TailUnsupported

  /** The zero value of a type. Types that makeOp refuses have no value here. */
  function Zero(ty: Ty): Val
    decreases ty
  {
    match ty
    case TBool => VBool(false)
    case TUint(_) => VUint(0)
    case TString => VString([])
    case TBigInt => VBig(0)
    case TStruct(fs) => VStruct(seq(|fs|, i requires 0 <= i < |fs| => Zero(fs[i].ty)))
    case TSlice(e) => if IsByte(e) then VBytes(true, []) else VSlice(true, [])
    case TArray(n, _) => VArray(seq(n, i => 0))
    case TNamed(u) => if u.TBigInt? then VStruct([]) else Zero(u)
    case _ => VNil
  }

  predicate Typed(ty: Ty, v: Val)
    decreases ty, v
  {
    match ty
    case TBool => v.VBool?
    case TUint(size) => v.VUint? && v.n < Pow(256, size)
    case TString => v.VString?
    case TBigInt => v.VBig?
    case TPtr(e) => v == VNil || (v.VPtr? && Typed(e, v.to))
    case TStruct(fs) => v.VStruct? && |v.fields| == |fs| && forall i :: 0 <= i < |fs| ==> Typed(fs[i].ty, v.fields[i])
    case TSlice(e) =>
      if IsByte(e) then v.VBytes? && (v.isNil ==> v.s == [])
      else v.VSlice? && (v.isNil ==> v.elems == []) && forall i :: 0 <= i < |v.elems| ==> Typed(e, v.elems[i])
    case TArray(n, _) => v.VArray? && |v.s| == n
    case TNamed(u) => if u.TBigInt? then v == VStruct([]) else Typed(u, v)
    case _ => v == VNil
  }

  // ---------- makeOp ----------

  function MakeOp(text: Text, ty: Ty, tags: Tags): Result<Op, BuildError>
    decreases ty, 1, 0
  {
    match ty
    case TBigInt => Ok(BigIntOp(false))
    case TNamed(u) =>
      if u.TBigInt? then Ok(StructOp([], NoFields, NoFields)) else MakeOp(text, u, tags)
    case TPtr(e) =>
      if e.TBigInt? then Ok(BigIntOp(true))
      else (match MakeOp(text, e, NoTags())
            case Err(x) => Err(x)
            case Ok(op) => Ok(PtrOp(op, tags.nilOK, if tags.nilOK then tags.nilKind else DefaultNilValue(e))))
    case TBool => Ok(BasicOp(BoolB, false))
    case TUint(size) => Ok(BasicOp(UintB(size), false))
    case TString => Ok(BasicOp(StringB, false))
    case TStruct(fs) =>
      (match Processed(text, fs)
       case None => Err(BadStruct)
       case Some(ks) =>
         match MakeFields(text, ty, ks, false)
         case Err(x) => Err(x)
         case Ok(required) =>
           match MakeFields(text, ty, ks, true)
           case Err(x) => Err(x)
           case Ok(optional) => Ok(StructOp(Zero(ty).fields, required, optional)))
    case TSlice(e) =>
      if IsByte(e) then Ok(BasicOp(BytesB, e.TNamed?))
      else (match MakeOp(text, e, NoTags())
            case Err(x) => Err(x)
            case Ok(op) => Ok(SliceOp(op)))
    case TArray(n, e) => if IsByte(e) then Ok(ByteArrayOp(n)) else Err(Unhandled)
    case _ => Err(Unhandled)
  }

  /** The fields of makeStructOp's loop that are optional, or those that are not. */
  function MakeFields(text: Text, ty: Ty, ks: seq<Kept>, optional: bool): Result<Fields, BuildError>
    requires ty.TStruct?
    decreases ty, 0, |ks|
  {
    if ks == [] then Ok(NoFields)
    else
      match MakeFields(text, ty, ks[1..], optional)
      case Err(x) => Err(x)
      case Ok(rest) =>
        var k := ks[0];
        if k.tags.optional != optional then Ok(rest)
        else if k.tags.tail then Err(TailUnsupported)
        else if k.index >= |ty.fields| then Err(Unhandled)
        else (match MakeOp(text, ty.fields[k.index].ty, k.tags)
              case Err(x) => Err(x)
              case Ok(op) => Ok(Field(k.index, Zero(ty.fields[k.index].ty), op, rest)))
  }

  // ---------- the trees it builds ----------

  /** Kept fields come in the order of their indices, within the struct. */
  predicate Increasing(ks: seq<Kept>, n: nat) {
    (forall i :: 0 <= i < |ks| ==> ks[i].index < n) && forall i, j :: 0 <= i < j < |ks| ==> ks[i].index < ks[j].index
  }

  lemma {:induction false} KeptIncreasing(text: Text, fs: seq<TyField>, last: nat)
    requires KeptFields(text, fs, last).Ok?
    ensures Increasing(KeptFields(text, fs, last).value, |fs|)
    decreases |fs|
  {
    if fs != [] {
      KeptIncreasing(text, fs[..|fs| - 1], last);
    }
  }

  predicate IndexIn(ks: seq<Kept>, i: nat, optional: bool) {
    exists j :: 0 <= j < |ks| && ks[j].index == i && ks[j].tags.optional == optional
  }

  /** The zero value has its type and is zero to nonZeroCheck. */
  lemma {:induction false} ZeroTyped(ty: Ty)
    ensures Typed(ty, Zero(ty)) && !NonZero(Zero(ty), Zero(ty))
    decreases ty
  {
    match ty {
      case TStruct(fs) =>
        forall i | 0 <= i < |fs|
          ensures Typed(fs[i].ty, Zero(ty).fields[i])
        {
          ZeroTyped(fs[i].ty);
        }
      case TNamed(u) =>
        if !u.TBigInt? {
          ZeroTyped(u);
        }
      case _ =>
    }
  }

  /** The tree has the shape the codecs rely on, and takes every value of the type. */
  lemma {:induction false} MakeOpFits(text: Text, ty: Ty, tags: Tags, v: Val)
    requires MakeOp(text, ty, tags).Ok? && Typed(ty, v)
    ensures Fits(MakeOp(text, ty, tags).value, v)
    decreases ty, 1, 0
  {
    var op := MakeOp(text, ty, tags).value;
    match ty {
      case TNamed(u) =>
        if !u.TBigInt? {
          MakeOpFits(text, u, tags, v);
        }
      case TPtr(e) =>
        if v != VNil && !e.TBigInt? {
          MakeOpFits(text, e, NoTags(), v.to);
        }
      case TStruct(fs) =>
        var ks := Processed(text, fs).value;
        MakeFieldsFit(text, ty, ks, false, v);
        MakeFieldsFit(text, ty, ks, true, v);
      case TSlice(e) =>
        if !IsByte(e) {
          ElemsFit(text, e, v.elems);
        }
      case _ =>
    }
  }

  lemma {:induction false} ElemsFit(text: Text, e: Ty, vs: seq<Val>)
    requires MakeOp(text, e, NoTags()).Ok? && forall i :: 0 <= i < |vs| ==> Typed(e, vs[i])
    ensures AllFit(MakeOp(text, e, NoTags()).value, vs)
    decreases e, 2, |vs|
  {
    if vs != [] {
      ElemsFit(text, e, vs[..|vs| - 1]);
      MakeOpFits(text, e, NoTags(), vs[|vs| - 1]);
    }
  }

  lemma {:induction false} MakeFieldsFit(text: Text, ty: Ty, ks: seq<Kept>, optional: bool, v: Val)
    requires ty.TStruct? && MakeFields(text, ty, ks, optional).Ok? && Typed(ty, v)
    ensures FieldsFit(MakeFields(text, ty, ks, optional).value, v.fields)
    decreases ty, 0, |ks|
  {
    if ks != [] {
      MakeFieldsFit(text, ty, ks[1..], optional, v);
      var k := ks[0];
      if k.tags.optional == optional {
        MakeOpFits(text, ty.fields[k.index].ty, k.tags, v.fields[k.index]);
      }
    }
  }

  lemma {:induction false} MakeOpWellFormed(text: Text, ty: Ty, tags: Tags)
    requires MakeOp(text, ty, tags).Ok?
    ensures WellFormed(MakeOp(text, ty, tags).value)
    ensures !tags.nilOK ==> !MayKeep(MakeOp(text, ty, tags).value)
    decreases ty, 1, 0
  {
    match ty {
      case TNamed(u) =>
        if !u.TBigInt? {
          MakeOpWellFormed(text, u, tags);
        }
      case TPtr(e) =>
        if !e.TBigInt? {
          MakeOpWellFormed(text, e, NoTags());
        }
      case TStruct(fs) =>
        var ks := Processed(text, fs).value;
        KeptIncreasing(text, fs, LastPublic(fs));
        MakeFieldsWellFormed(text, ty, ks, false);
        MakeFieldsWellFormed(text, ty, ks, true);
        IndicesApart(text, ty, ks);
      case TSlice(e) =>
        if !IsByte(e) {
          MakeOpWellFormed(text, e, NoTags());
        }
      case _ =>
    }
  }

  lemma {:induction false} MakeFieldsWellFormed(text: Text, ty: Ty, ks: seq<Kept>, optional: bool)
    requires ty.TStruct? && Increasing(ks, |ty.fields|) && MakeFields(text, ty, ks, optional).Ok?
    ensures var fs := MakeFields(text, ty, ks, optional).value;
            && FieldsWellFormed(fs, Zero(ty).fields)
            && forall i :: i in Indices(fs) <==> IndexIn(ks, i, optional)
    decreases ty, 0, |ks|
  {
    hide MakeOp, Typed, NonZero, Fits, WellFormed, IndexIn;
    if ks == [] {
      NoIndexIn(optional);
    } else {
      var k := ks[0];
      MakeFieldsWellFormed(text, ty, ks[1..], optional);
      IndexInFirst(ks, |ty.fields|, optional);
      if k.tags.optional == optional {
        var fty := ty.fields[k.index].ty;
        MakeOpWellFormed(text, fty, k.tags);
        ZeroTyped(fty);
        MakeOpFits(text, fty, k.tags, Zero(fty));
      }
    }
  }

  lemma NoIndexIn(optional: bool)
    ensures forall i: nat :: !IndexIn([], i, optional)
  {
  }

  /** The first field is listed, or not; the others have greater indices. */
  lemma IndexInFirst(ks: seq<Kept>, n: nat, optional: bool)
    requires ks != [] && Increasing(ks, n)
    ensures forall i: nat :: IndexIn(ks, i, optional)
              <==> (i == ks[0].index && ks[0].tags.optional == optional) || IndexIn(ks[1..], i, optional)
    ensures forall i: nat :: IndexIn(ks[1..], i, optional) ==> i > ks[0].index
  {
  }

  /** A field is optional or not, so the two lists share none. */
  lemma {:induction false} IndicesApart(text: Text, ty: Ty, ks: seq<Kept>)
    requires ty.TStruct? && Increasing(ks, |ty.fields|)
    requires MakeFields(text, ty, ks, false).Ok? && MakeFields(text, ty, ks, true).Ok?
    ensures Indices(MakeFields(text, ty, ks, false).value) !! Indices(MakeFields(text, ty, ks, true).value)
    decreases ty, 0, |ks| + 1
  {
    MakeFieldsWellFormed(text, ty, ks, false);
    MakeFieldsWellFormed(text, ty, ks, true);
    forall i | i in Indices(MakeFields(text, ty, ks, false).value)
      ensures i !in Indices(MakeFields(text, ty, ks, true).value)
    {
      assert IndexIn(ks, i, false);
    }
  }

  /**
   The encoding lists the required fields and then the optional ones. That is the order of the
   struct exactly when no required field follows an optional one, as ProcessFields is to check.
   */
  lemma DeclarationOrderIff(text: Text, ty: Ty, ks: seq<Kept>)
    requires ty.TStruct? && Increasing(ks, |ty.fields|) && forall i :: 0 <= i < |ks| ==> !ks[i].tags.tail
    requires MakeFields(text, ty, ks, false).Ok? && MakeFields(text, ty, ks, true).Ok?
    ensures var required := Indices(MakeFields(text, ty, ks, false).value);
            var optional := Indices(MakeFields(text, ty, ks, true).value);
            AllBelow(required, optional) <==> OptionalLast(ks)
  {
    MakeFieldsWellFormed(text, ty, ks, false);
    MakeFieldsWellFormed(text, ty, ks, true);
    var required := Indices(MakeFields(text, ty, ks, false).value);
    var optional := Indices(MakeFields(text, ty, ks, true).value);
    OrderIff(ks, |ty.fields|, required, optional);
  }

  predicate AllBelow(a: set<nat>, b: set<nat>) {
    forall i, j :: i in a && j in b ==> i < j
  }

  lemma OrderIff(ks: seq<Kept>, n: nat, required: set<nat>, optional: set<nat>)
    requires Increasing(ks, n) && forall i :: 0 <= i < |ks| ==> !ks[i].tags.tail
    requires forall i :: i in required <==> IndexIn(ks, i, false)
    requires forall i :: i in optional <==> IndexIn(ks, i, true)
    ensures AllBelow(required, optional) <==> OptionalLast(ks)
  {
    if !OptionalLast(ks) {
      var a, b :| 0 <= a < b < |ks| && Loose(ks[a]) && !Loose(ks[b]);
      assert IndexIn(ks, ks[a].index, true) && IndexIn(ks, ks[b].index, false);
      assert ks[b].index in required && ks[a].index in optional;
    } else {
      forall i, j | i in required && j in optional
        ensures i < j
      {
        assert IndexIn(ks, i, false) && IndexIn(ks, j, true);
        var b :| 0 <= b < |ks| && ks[b].index == i && ks[b].tags.optional == false;
        var a :| 0 <= a < |ks| && ks[a].index == j && ks[a].tags.optional == true;
        assert Loose(ks[a]) && !Loose(ks[b]);
      }
    }
  }

  lemma {:induction false} WellFormedPlaced(op: Op)
    requires WellFormed(op)
    ensures R.Placed(op)
    decreases op, 0
  {
    match op {
      case PtrOp(e, _, _) => WellFormedPlaced(e);
      case StructOp(z, fs, os) =>
        FieldsWellFormedPlaced(fs, z);
        FieldsWellFormedPlaced(os, z);
      case SliceOp(e) => WellFormedPlaced(e);
      case _ =>
    }
  }

  lemma {:induction false} FieldsWellFormedPlaced(fs: Fields, z: seq<Val>)
    requires FieldsWellFormed(fs, z)
    ensures R.FieldsPlaced(fs, |z|)
    decreases fs, 0
  {
    if fs != NoFields {
      WellFormedPlaced(fs.op);
      FieldsWellFormedPlaced(fs.rest, z);
    }
  }

  // ---------- the whole generator ----------

  /** EncodeRLP: the code of generateEncoder on a pointer to v, with an empty buffer. */
  function Encode(op: Op, v: Val): Result<seq<Item>, Error> {
    match W.Run(W.GenWrite(op, W.Obj, 0).0, VPtr(v), W.Writer(map[], [[]]))
    case Err(x) => Err(x)
    case Ok(w) => if |w.stack| == 1 then Ok(w.stack[0]) else Err(Panic)
  }

  /** DecodeRLP: the code of generateDecoder on a stream, and what it leaves of the stream. */
  function Decode(op: Op, stream: seq<Item>): Result<(Val, seq<Item>), Error> {
    var (result, code, _) := R.GenDecode(op, 0);
    match R.Run(code, R.Reader(map[], [], Cursor(stream, false)))
    case Err(x) => Err(x)
    case Ok(d) =>
      match R.Eval(result, d.env)
      case Some(v) => if d.outer == [] && !d.at.held then Ok((v, d.at.items)) else Err(Panic)
      case None => Err(Panic)
  }

  /**
   For every type the generator accepts and every value of it: the encoder fails exactly on a
   negative big.Int that it would write, and otherwise writes one item; the decoder takes no more
   than that item from any stream. When no item follows the marker of a tagged pointer in a struct,
   it succeeds exactly when every nil pointer that was written is tagged or of a type that reads its
   marker, and then gives back Canon of the value, which is the value as far as Alike says. When one does
   follow, in structs with all their optional fields written, it fails.
   */
  lemma GeneratedCodeRoundTrips(text: Text, ty: Ty, v: Val, rest: seq<Item>)
    requires MakeOp(text, ty, NoTags()).Ok? && MakeOp(text, ty, NoTags()).value.StructOp? && Typed(ty, v)
    ensures var op := MakeOp(text, ty, NoTags()).value;
            && Fits(op, v)
            && (if !NoNegative(op, v) then Encode(op, v) == Err(ErrNegativeBigInt)
                else
                  && Encode(op, v).Ok? && |Encode(op, v).value| == 1
                  && var back := Decode(op, Encode(op, v).value + rest);
                     && (back.Ok? ==> back.value.1 == rest)
                     && (Apart(op, v, true) ==>
                           && (back.Ok? <==> Apart(op, v, false) && Readable(op, v))
                           && (back.Ok? ==> back.value.0 == Canon(op, v) && Alike(op, v, back.value.0))))
  {
    var op := MakeOp(text, ty, NoTags()).value;
    MakeOpFits(text, ty, NoTags(), v);
    MakeOpWellFormed(text, ty, NoTags());
    EncodeIsEnc(op, v);
    EncOkIff(op, v);
    if NoNegative(op, v) {
      var item := Enc(op, v).value;
      WellFormedPlaced(op);
      DecodeIsDec(op, item, rest);
      if Apart(op, v, false) {
        ApartIsLax(op, v);
        RoundTrip(op, v);
        if Readable(op, v) {
          CanonAlike(op, v);
        }
      } else if Apart(op, v, true) {
        FollowedFails(op, v);
      }
    }
  }

  /**
   Without any condition on the value: it comes back, as far as Alike says, and is then written as
   the same item, exactly when every nil pointer written is tagged or of a type that reads its marker,
   every field reads an item equal to its own, and no list ends in an optional field that reads as zero.
   */
  lemma GeneratedCodeReturnsIff(text: Text, ty: Ty, v: Val, rest: seq<Item>)
    requires MakeOp(text, ty, NoTags()).Ok? && MakeOp(text, ty, NoTags()).value.StructOp? && Typed(ty, v)
    ensures var op := MakeOp(text, ty, NoTags()).value;
            && Fits(op, v)
            && (NoNegative(op, v) ==>
                  && Encode(op, v).Ok? && |Encode(op, v).value| == 1
                  && var items := Encode(op, v).value;
                     var back := Decode(op, items + rest);
                     (&& back.Ok? && back.value.1 == rest
                      && Fits(op, back.value.0) && Alike(op, v, back.value.0) && Encode(op, back.value.0) == Ok(items))
                     <==> Readable(op, v) && Tight(op, items[0]))
  {
    hide Decode, Encode, Tight, Dec, Enc, Alike, Readable;
    var op := MakeOp(text, ty, NoTags()).value;
    MakeOpFits(text, ty, NoTags(), v);
    MakeOpWellFormed(text, ty, NoTags());
    EncodeIsEnc(op, v);
    EncOkIff(op, v);
    if NoNegative(op, v) {
      var item := Enc(op, v).value;
      WellFormedPlaced(op);
      DecodeIsDec(op, item, rest);
      ReturnsIff(op, v);
      if Dec(op, item).Ok? {
        EncOfDec(op, item);
        EncodeIsEnc(op, Dec(op, item).value);
      }
    }
  }

  /**
   For every item at the head of any stream that the generated decoder accepts: it takes just that
   item, and the generated encoder writes the same item for what was read exactly when every field
   read an item equal to its own and no list ends in an optional field that reads as zero.
   */
  lemma GeneratedDecoderIsCanonicalIff(text: Text, ty: Ty, item: Item, rest: seq<Item>)
    requires MakeOp(text, ty, NoTags()).Ok? && MakeOp(text, ty, NoTags()).value.StructOp?
    requires Decode(MakeOp(text, ty, NoTags()).value, [item] + rest).Ok?
    ensures var op := MakeOp(text, ty, NoTags()).value;
            var (v, left) := Decode(op, [item] + rest).value;
            && left == rest && Fits(op, v) && Encode(op, v).Ok?
            && (Encode(op, v) == Ok([item]) <==> Tight(op, item))
  {
    hide Decode, Encode, Tight, Dec, Enc;
    var op := MakeOp(text, ty, NoTags()).value;
    MakeOpWellFormed(text, ty, NoTags());
    WellFormedPlaced(op);
    DecodeIsDec(op, item, rest);
    EncOfDec(op, item);
    EncodeIsEnc(op, Dec(op, item).value);
  }

  lemma EncodeIsEnc(op: Op, v: Val)
    requires op.StructOp? && Fits(op, v)
    ensures Encode(op, v) == match Enc(op, v) case Ok(item) => Ok([item]) case Err(x) => Err(x)
  {
    hide W.Run, W.GenWrite;
    W.EncoderWrites(op, v);
  }

  lemma DecodeIsDec(op: Op, item: Item, rest: seq<Item>)
    requires R.Placed(op) && op.StructOp?
    ensures Decode(op, [item] + rest) == match Dec(op, item) case Ok(v) => Ok((v, rest)) case Err(x) => Err(x)
  {
    hide R.Run, R.GenDecode;
    var d := R.Reader(map[], [], Cursor([item] + rest, false));
    assert R.NextItem(d) == item && ([item] + rest)[1..] == rest;
    R.DecodeRuns(op, 0, d);
  }
}
