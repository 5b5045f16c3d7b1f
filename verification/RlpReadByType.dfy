/**
 Reading a Go value off an item by its type and struct tags, without operation trees, and the
 theorem that the generated decoder reads just that.
 */
module RlpReadByType {
  import opened Wrappers
  import opened Bytes
  import opened RlpOps
  import opened RlpFields
  import opened RlpBuild
  import opened RlpByType

  /** Go's zero value, seen from the value: slices and pointers are nil, everything else is empty or 0. */
  predicate IsGoZero(v: Val) {
    match v
    case VBool(b) => !b
    case VUint(n) => n == 0
    case VString(s) => s == []
    case VBytes(isNil, s) => isNil && s == []
    case VArray(s) => forall i :: 0 <= i < |s| ==> s[i] == 0
    case VBig(i) => i == 0
    case VNil => true
    case VPtr(_) => false
    case VStruct(fields) => forall i :: 0 <= i < |fields| ==> IsGoZero(fields[i])
    case VSlice(isNil, elems) => isNil && elems == []
  }

  lemma {:induction false} ZeroIsGoZero(ty: Ty)
    ensures IsGoZero(Zero(ty))
    decreases ty
  {
    match ty {
      case TStruct(fs) =>
        forall i | 0 <= i < |fs|
          ensures IsGoZero(Zero(ty).fields[i])
        {
          ZeroIsGoZero(fs[i].ty);
        }
      case TNamed(u) =>
        if !u.TBigInt? {
          ZeroIsGoZero(u);
        }
      case _ =>
    }
  }

  // ---------- which types are accepted ----------

  /** Booleans, sized unsigned integers, strings, big.Int, pointers, slices, byte arrays and structs of these. */
  predicate Supported(text: Text, ty: Ty)
    decreases ty
  {
    match ty
    case TBool => true
    case TUint(_) => true
    case TString => true
    case TBigInt => true
    case TPtr(e) => Supported(text, e)
    case TSlice(e) => Supported(text, e)
    case TArray(_, e) => IsByte(e)
    case TNamed(u) => Supported(text, u)
    case TStruct(fs) =>
      Processed(text, fs).Some?
      && var ks := Processed(text, fs).value;
         forall i :: 0 <= i < |ks| && ks[i].index < |fs| ==> !ks[i].tags.tail && Supported(text, fs[ks[i].index].ty)
    case _ => false
  }

  lemma {:induction false} ByteSupported(text: Text, ty: Ty)
    requires IsByte(ty)
    ensures Supported(text, ty)
  {
    if ty.TNamed? {
      ByteSupported(text, ty.under);
    }
  }

  /** The generator accepts exactly these types, whatever the tags. */
  lemma {:induction false} MakeOpOkIff(text: Text, ty: Ty, tags: Tags)
    ensures MakeOp(text, ty, tags).Ok? <==> Supported(text, ty)
    decreases ty, 1, 0
  {
    match ty {
      case TNamed(u) =>
        if !u.TBigInt? {
          MakeOpOkIff(text, u, tags);
        }
      case TPtr(e) =>
        if !e.TBigInt? {
          MakeOpOkIff(text, e, NoTags());
        }
      case TSlice(e) =>
        if IsByte(e) {
          ByteSupported(text, e);
        } else {
          MakeOpOkIff(text, e, NoTags());
        }
      case TStruct(fs) =>
        if Processed(text, fs).Some? {
          var ks := Processed(text, fs).value;
          KeptIncreasing(text, fs, LastPublic(fs));
          KeptCount(ks, |fs|);
          FieldsOkIff(text, ty, ks, false);
          FieldsOkIff(text, ty, ks, true);
        }
      case _ =>
    }
  }

  predicate FieldOk(text: Text, ty: Ty, k: Kept)
    requires ty.TStruct?
  {
    !k.tags.tail && k.index < |ty.fields| && Supported(text, ty.fields[k.index].ty)
  }

  lemma {:induction false} FieldsOkIff(text: Text, ty: Ty, ks: seq<Kept>, optional: bool)
    requires ty.TStruct?
    ensures MakeFields(text, ty, ks, optional).Ok?
            <==> forall i :: 0 <= i < |ks| && ks[i].tags.optional == optional ==> FieldOk(text, ty, ks[i])
    decreases ty, 0, |ks|
  {
    hide MakeOp, FieldOk;
    if ks != [] {
      FieldsOkIff(text, ty, ks[1..], optional);
      assert forall i :: 0 <= i < |ks| - 1 ==> ks[1..][i] == ks[i + 1];
      assert forall i :: 1 <= i < |ks| ==> ks[i] == ks[1..][i - 1];
      FirstFieldOk(text, ty, ks, optional);
    }
  }

  lemma {:induction false} FirstFieldOk(text: Text, ty: Ty, ks: seq<Kept>, optional: bool)
    requires ty.TStruct? && ks != []
    ensures MakeFields(text, ty, ks, optional).Ok?
            <==> MakeFields(text, ty, ks[1..], optional).Ok? && (ks[0].tags.optional == optional ==> FieldOk(text, ty, ks[0]))
    decreases ty, 0, 0
  {
    hide MakeOp;
    if ks[0].index < |ty.fields| {
      MakeOpOkIff(text, ty.fields[ks[0].index].ty, ks[0].tags);
    }
  }

  /** The type of what a Stream method returns. */
  function ResultType(k: Basic): Ty {
    match k
    case BoolB => TBool
    case UintB(size) => TUint(size)
    case StringB => TString
    case BytesB => TSlice(TUint(1))
  }

  /** The decoder converts a basic value exactly when the Stream method returns another type. */
  lemma {:induction false} ConvertsIff(text: Text, ty: Ty, tags: Tags)
    requires MakeOp(text, ty, tags).Ok? && MakeOp(text, ty, tags).value.BasicOp?
    ensures var op := MakeOp(text, ty, tags).value; op.conv <==> Underlying(ty) != ResultType(op.kind)
    decreases ty
  {
    match ty {
      case TNamed(u) =>
        if !u.TBigInt? {
          ConvertsIff(text, u, tags);
        }
      case _ =>
    }
  }

  // ---------- reading by type ----------

  /** Reading the item as this type ends at a tagged pointer's marker, so that its header stays held. */
  predicate HoldsHeader(ty: Ty, tags: Tags, item: Item) {
    match ty
    case TNamed(u) => !u.TBigInt? && HoldsHeader(u, tags, item)
    case TPtr(e) =>
      !e.TBigInt? && ((tags.nilOK && item == Marker(tags.nilKind)) || HoldsHeader(e, NoTags(), item))
    case _ => false
  }

  /** Where reading a field leaves the list. */
  function Past(ty: Ty, tags: Tags, c: Cursor): Cursor
    requires c.items != []
  {
    if HoldsHeader(ty, tags, c.items[0]) then Cursor(c.items, true) else Cursor(c.items[1..], false)
  }

  /** An integer comes without leading zero bytes. */
  predicate IsNumber(item: Item) {
    item.Str? && !(|item.bytes| > 0 && item.bytes[0] == 0)
  }

  /** The value of an item. Nothing is read as a type or struct that the generator refuses. */
  ghost function Read(text: Text, ty: Ty, tags: Tags, item: Item): Option<Val>
    decreases ty, 1, 0
  {
    match ty
    case TBool => if item == Str([]) then Some(VBool(false)) else if item == Str([1]) then Some(VBool(true)) else None
    case TUint(size) => if IsNumber(item) && |item.bytes| <= size then Some(VUint(BigEndian(item.bytes))) else None
    case TString => if item.Str? then Some(VString(item.bytes)) else None
    case TBigInt => if IsNumber(item) then Some(VBig(BigEndian(item.bytes))) else None
    case TPtr(e) =>
      if tags.nilOK && !e.TBigInt? && item == Marker(tags.nilKind) then Some(VNil)
      else (match Read(text, e, NoTags(), item)
            case None => None
            case Some(v) => Some(VPtr(v)))
    case TSlice(e) =>
      if IsByte(e) then (if item.Str? then Some(VBytes(false, item.bytes)) else None)
      else if !item.List? then None
      else (match ReadAll(text, e, item.items)
            case None => None
            case Some(vs) => Some(VSlice(item.items == [], vs)))
    case TArray(n, e) => if IsByte(e) && item.Str? && |item.bytes| == n then Some(VArray(item.bytes)) else None
    case TNamed(u) =>
      if u.TBigInt? then (if item == List([]) then Some(VStruct([])) else None) else Read(text, u, tags, item)
    case TStruct(fs) =>
      (match Processed(text, fs)
       case None => None
       case Some(ks) =>
         if !item.List? then None
         else match ReadFields(text, ty, Arranged(ks), Cursor(item.items, false), Zero(ty).fields)
           case None => None
           case Some((vs, left)) => if More(left) then None else Some(VStruct(vs)))
    case _ => None
  }

  ghost function ReadAll(text: Text, e: Ty, items: seq<Item>): Option<seq<Val>>
    decreases e, 2, |items|
  {
    if items == [] then Some([])
    else
      match ReadAll(text, e, items[..|items| - 1])
      case None => None
      case Some(vs) =>
        match Read(text, e, NoTags(), items[|items| - 1])
        case None => None
        case Some(v) => Some(vs + [v])
  }

  /** The listed fields one after the other; an optional one keeps its zero value when the list has ended. */
  ghost function ReadFields(text: Text, ty: Ty, ks: seq<Kept>, c: Cursor, vs: seq<Val>): Option<(seq<Val>, Cursor)>
    requires ty.TStruct?
    decreases ty, 0, |ks|
  {
    if ks == [] then Some((vs, c))
    else if ks[0].tags.optional && !More(c) then ReadFields(text, ty, ks[1..], c, vs)
    else if c.items == [] || ks[0].index >= |ty.fields| then None
    else
      var fty := ty.fields[ks[0].index].ty;
      match Read(text, fty, ks[0].tags, c.items[0])
      case None => None
      case Some(v) => ReadFields(text, ty, ks[1..], Past(fty, ks[0].tags, c), Put(vs, ks[0].index, v))
  }

  // ---------- the decoder reads it ----------

  /** The value, without the kind of error. */
  function Value<T>(r: Result<T, Error>): Option<T> {
    match r case Ok(v) => Some(v) case Err(_) => None
  }

  lemma {:induction false} KeepsIff(text: Text, ty: Ty, tags: Tags, item: Item)
    requires MakeOp(text, ty, tags).Ok?
    ensures Keeps(MakeOp(text, ty, tags).value, item) <==> HoldsHeader(ty, tags, item)
    decreases ty
  {
    match ty {
      case TNamed(u) =>
        if !u.TBigInt? {
          KeepsIff(text, u, tags, item);
        }
      case TPtr(e) =>
        if !e.TBigInt? {
          KeepsIff(text, e, NoTags(), item);
        }
      case _ =>
    }
  }

  /** The tree of a type reads from each item the value of the type, or fails. */
  lemma {:induction false} DecIsRead(text: Text, ty: Ty, tags: Tags, item: Item)
    requires MakeOp(text, ty, tags).Ok?
    ensures Value(Dec(MakeOp(text, ty, tags).value, item)) == Read(text, ty, tags, item)
    decreases ty, 1, 0
  {
    match ty {
      case TNamed(u) =>
        if !u.TBigInt? {
          DecIsRead(text, u, tags, item);
        }
      case TPtr(e) =>
        if !e.TBigInt? {
          DecIsRead(text, e, NoTags(), item);
        }
      case TStruct(fs) => StructIsRead(text, ty, tags, item);
      case TSlice(e) =>
        if !IsByte(e) && item.List? {
          ElemsAreRead(text, e, item.items);
        }
      case _ =>
    }
  }

  lemma {:induction false} ElemsAreRead(text: Text, e: Ty, items: seq<Item>)
    requires MakeOp(text, e, NoTags()).Ok?
    ensures Value(DecAll(MakeOp(text, e, NoTags()).value, items)) == ReadAll(text, e, items)
    ensures ReadAll(text, e, items).Some? ==> |ReadAll(text, e, items).value| == |items|
    decreases e, 2, |items|
  {
    hide MakeOp, Dec, Read;
    if items != [] {
      ElemsAreRead(text, e, items[..|items| - 1]);
      DecIsRead(text, e, NoTags(), items[|items| - 1]);
    }
  }

  lemma {:induction false} StructIsRead(text: Text, ty: Ty, tags: Tags, item: Item)
    requires ty.TStruct? && MakeOp(text, ty, tags).Ok?
    ensures Value(Dec(MakeOp(text, ty, tags).value, item)) == Read(text, ty, tags, item)
    decreases ty, 0, |ty.fields| + 1
  {
    if item.List? {
      var ks := Processed(text, ty.fields).value;
      KeptIncreasing(text, ty.fields, LastPublic(ty.fields));
      KeptCount(ks, |ty.fields|);
      var c, z := Cursor(item.items, false), Zero(ty).fields;
      ReadConcat(text, ty, Select(ks, false), Select(ks, true), c, z);
      RequiredAreRead(text, ty, ks, c, z);
      var required := DecFields(MakeFields(text, ty, ks, false).value, c, z);
      if required.Ok? {
        OptionalAreRead(text, ty, ks, required.value.1, required.value.0);
      }
    }
  }

  lemma {:induction false} ReadConcat(text: Text, ty: Ty, a: seq<Kept>, b: seq<Kept>, c: Cursor, vs: seq<Val>)
    requires ty.TStruct?
    ensures ReadFields(text, ty, a + b, c, vs)
         == match ReadFields(text, ty, a, c, vs)
            case None => None
            case Some((us, rest)) => ReadFields(text, ty, b, rest, us)
    decreases |a|
  {
    hide Read, Past, Put;
    if a == [] {
      assert a + b == b;
    } else {
      assert (a + b)[1..] == a[1..] + b && (a + b)[0] == a[0];
      if a[0].tags.optional && !More(c) {
        ReadConcat(text, ty, a[1..], b, c, vs);
      } else if c.items != [] && a[0].index < |ty.fields| {
        var fty := ty.fields[a[0].index].ty;
        var r := Read(text, fty, a[0].tags, c.items[0]);
        if r.Some? {
          ReadConcat(text, ty, a[1..], b, Past(fty, a[0].tags, c), Put(vs, a[0].index, r.value));
        }
      }
    }
  }

  lemma {:induction false} RequiredAreRead(text: Text, ty: Ty, ks: seq<Kept>, c: Cursor, vs: seq<Val>)
    requires ty.TStruct? && MakeFields(text, ty, ks, false).Ok?
    ensures Value(DecFields(MakeFields(text, ty, ks, false).value, c, vs)) == ReadFields(text, ty, Select(ks, false), c, vs)
    decreases ty, 0, |ks|
  {
    hide MakeOp, Dec, Read, Keeps, HoldsHeader, Put;
    if ks != [] {
      var k := ks[0];
      if k.tags.optional {
        RequiredAreRead(text, ty, ks[1..], c, vs);
      } else if c.items != [] {
        assert Select(ks, false)[1..] == Select(ks[1..], false);
        var fs, fty := MakeFields(text, ty, ks, false).value, ty.fields[k.index].ty;
        DecIsRead(text, fty, k.tags, c.items[0]);
        KeepsIff(text, fty, k.tags, c.items[0]);
        var r := Dec(fs.op, c.items[0]);
        if r.Ok? {
          RequiredAreRead(text, ty, ks[1..], After(fs.op, c), Put(vs, k.index, r.value));
        }
      }
    }
  }

  lemma {:induction false} OptionalAreRead(text: Text, ty: Ty, ks: seq<Kept>, c: Cursor, vs: seq<Val>)
    requires ty.TStruct? && MakeFields(text, ty, ks, true).Ok?
    ensures Value(DecOptional(MakeFields(text, ty, ks, true).value, c, vs)) == ReadFields(text, ty, Select(ks, true), c, vs)
    decreases ty, 0, |ks|
  {
    hide MakeOp, Dec, Read, Keeps, HoldsHeader, Put;
    if ks != [] {
      var k := ks[0];
      if !k.tags.optional {
        OptionalAreRead(text, ty, ks[1..], c, vs);
      } else {
        assert Select(ks, true)[1..] == Select(ks[1..], true);
        var fs, fty := MakeFields(text, ty, ks, true).value, ty.fields[k.index].ty;
        if More(c) {
          DecIsRead(text, fty, k.tags, c.items[0]);
          KeepsIff(text, fty, k.tags, c.items[0]);
          var r := Dec(fs.op, c.items[0]);
          if r.Ok? {
            OptionalAreRead(text, ty, ks[1..], After(fs.op, c), Put(vs, k.index, r.value));
          }
        } else {
          OptionalAreRead(text, ty, ks[1..], c, vs);
        }
      }
    }
  }

  // ---------- the whole generator ----------

  /**
   For every type the generator accepts and every item at the head of a stream, DecodeRLP takes the
   item and gives the value that the type and the tags say, or fails when they say none.
   */
  lemma GeneratedDecoderIsRead(text: Text, ty: Ty, item: Item, rest: seq<Item>)
    requires MakeOp(text, ty, NoTags()).Ok? && MakeOp(text, ty, NoTags()).value.StructOp?
    ensures Value(Decode(MakeOp(text, ty, NoTags()).value, [item] + rest))
         == match Read(text, ty, NoTags(), item) case Some(v) => Some((v, rest)) case None => None
  {
    hide Decode, Dec, Read, MakeOp;
    var op := MakeOp(text, ty, NoTags()).value;
    MakeOpWellFormed(text, ty, NoTags());
    WellFormedPlaced(op);
    DecodeIsDec(op, item, rest);
    DecIsRead(text, ty, NoTags(), item);
  }
}
