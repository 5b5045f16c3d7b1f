/**
 The encoding of a Go value read off its type and struct tags, without operation trees, and the
 theorem that the generated encoder writes just that.
 */
module RlpByType {
  import opened Wrappers
  import opened Bytes
  import opened RlpOps
  import opened RlpFields
  import opened Powers
  import opened RlpCanonical
  import opened RlpBuild

  // ---------- the encoding of a type ----------

  /** A slice is empty when it has no elements, whether nil or not; anything else is its type's zero. */
  predicate IsZero(ty: Ty, v: Val)
    requires Typed(ty, v)
  {
    match ty
    case TBool => !v.b
    case TUint(_) => v.n == 0
    case TString => v.s == []
    case TBigInt => v.i == 0
    case TPtr(_) => v.VNil?
    case TSlice(e) => if IsByte(e) then v.s == [] else v.elems == []
    case TArray(_, _) => forall i :: 0 <= i < |v.s| ==> v.s[i] == 0
    case TStruct(fs) => forall i :: 0 <= i < |fs| ==> v.fields[i] == Zero(fs[i].ty)
    case TNamed(u) => u.TBigInt? || IsZero(u, v)
    case _ => true
  }

  /** The fields with this flag, in their order. */
  function Select(ks: seq<Kept>, optional: bool): seq<Kept> {
    if ks == [] then []
    else if ks[0].tags.optional == optional then [ks[0]] + Select(ks[1..], optional)
    else Select(ks[1..], optional)
  }

  /** Required fields and then optional ones. */
  function Arranged(ks: seq<Kept>): seq<Kept> {
    Select(ks, false) + Select(ks, true)
  }

  ghost predicate ZeroField(ty: Ty, k: Kept, v: Val)
    requires Typed(ty, v)
  {
    ty.TStruct? && k.index < |ty.fields| && k.tags.optional && IsZero(ty.fields[k.index].ty, v.fields[k.index])
  }

  /** Optional fields at the end that are zero are not written. */
  ghost function Trimmed(ty: Ty, ks: seq<Kept>, v: Val): seq<Kept>
    requires Typed(ty, v)
  {
    if ks != [] && ZeroField(ty, ks[|ks| - 1], v) then Trimmed(ty, ks[..|ks| - 1], v) else ks
  }

  /** The marker of a nil pointer: that of its tag, or of what its elements are written as. */
  function NilItem(e: Ty, tags: Tags): Item {
    if e.TBigInt? then Str([])
    else if tags.nilOK then Marker(tags.nilKind)
    else Marker(DefaultNilValue(e))
  }

  /** The item of a value. Types and structs that the generator refuses have none. */
  ghost function Written(text: Text, ty: Ty, tags: Tags, v: Val): Result<Item, Error>
    requires Typed(ty, v)
    decreases ty, 1, 0
  {
    match ty
    case TBool => Ok(Str(if v.b then [1] else []))
    case TUint(_) => Ok(Str(Shortest(v.n)))
    case TString => Ok(Str(v.s))
    case TBigInt => if v.i < 0 then Err(ErrNegativeBigInt) else Ok(Str(Shortest(v.i)))
    case TPtr(e) => if v == VNil then Ok(NilItem(e, tags)) else Written(text, e, NoTags(), v.to)
    case TSlice(e) =>
      if IsByte(e) then Ok(Str(v.s))
      else
        (match WrittenAll(text, e, v.elems)
         case Err(x) => Err(x)
         case Ok(items) => Ok(List(items)))
    case TArray(_, _) => Ok(Str(v.s))
    case TStruct(fs) =>
      (match Processed(text, fs)
       case None => Err(Panic)
       case Some(ks) =>
         match WrittenFields(text, ty, Trimmed(ty, Arranged(ks), v), v)
         case Err(x) => Err(x)
         case Ok(items) => Ok(List(items)))
    case TNamed(u) => if u.TBigInt? then Ok(List([])) else Written(text, u, tags, v)
    case _ => Err(Panic)
  }

  ghost function WrittenAll(text: Text, e: Ty, vs: seq<Val>): Result<seq<Item>, Error>
    requires forall i :: 0 <= i < |vs| ==> Typed(e, vs[i])
    decreases e, 2, |vs|
  {
    if vs == [] then Ok([])
    else
      match WrittenAll(text, e, vs[..|vs| - 1])
      case Err(x) => Err(x)
      case Ok(items) =>
        match Written(text, e, NoTags(), vs[|vs| - 1])
        case Err(x) => Err(x)
        case Ok(item) => Ok(items + [item])
  }

  /** The items of the listed fields, one after the other. */
  ghost function WrittenFields(text: Text, ty: Ty, ks: seq<Kept>, v: Val): Result<seq<Item>, Error>
    requires ty.TStruct? && Typed(ty, v)
    decreases ty, 0, |ks|
  {
    if ks == [] then Ok([])
    else if ks[0].index >= |ty.fields| then Err(Panic)
    else
      match Written(text, ty.fields[ks[0].index].ty, ks[0].tags, v.fields[ks[0].index])
      case Err(x) => Err(x)
      case Ok(item) =>
        match WrittenFields(text, ty, ks[1..], v)
        case Err(x) => Err(x)
        case Ok(items) => Ok([item] + items)
  }

  // ---------- zero ----------

  /** nonZeroCheck on the zero value of the type. */
  lemma {:induction false} NonZeroIff(ty: Ty, v: Val)
    requires Typed(ty, v)
    ensures NonZero(Zero(ty), v) <==> !IsZero(ty, v)
    decreases ty
  {
    match ty {
      case TNamed(u) =>
        if !u.TBigInt? {
          NonZeroIff(u, v);
        }
      case TArray(n, _) =>
        assert IsZero(ty, v) ==> v.s == Zero(ty).s;
      case TStruct(fs) =>
        assert IsZero(ty, v) ==> v.fields == Zero(ty).fields;
      case _ =>
    }
  }

  // ---------- the order of the fields ----------

  lemma {:induction false} SelectHas(ks: seq<Kept>, optional: bool, k: Kept)
    ensures k in Select(ks, optional) <==> k in ks && k.tags.optional == optional
    decreases |ks|
  {
    if ks != [] {
      SelectHas(ks[1..], optional, k);
      assert ks == [ks[0]] + ks[1..];
    }
  }

  lemma {:induction false} SelectAll(ks: seq<Kept>, optional: bool)
    requires forall i :: 0 <= i < |ks| ==> ks[i].tags.optional == optional
    ensures Select(ks, optional) == ks && Select(ks, !optional) == []
    decreases |ks|
  {
    if ks != [] {
      SelectAll(ks[1..], optional);
    }
  }

  /** The order of the struct is kept exactly when no required field follows an optional one. */
  lemma {:induction false} ArrangedIff(ks: seq<Kept>)
    requires forall i :: 0 <= i < |ks| ==> !ks[i].tags.tail
    ensures Arranged(ks) == ks <==> OptionalLast(ks)
    decreases |ks|
  {
    if ks != [] {
      var rest := ks[1..];
      if !ks[0].tags.optional {
        ArrangedIff(rest);
        assert Arranged(ks) == [ks[0]] + Arranged(rest);
        assert OptionalLast(ks) <==> OptionalLast(rest) by {
          RequiredFirst(ks);
        }
      } else if forall i :: 0 <= i < |ks| ==> ks[i].tags.optional {
        SelectAll(ks, true);
      } else {
        var j :| 0 <= j < |ks| && !ks[j].tags.optional;
        SelectHas(ks, false, ks[j]);
        assert Arranged(ks)[0] == Select(ks, false)[0];
        SelectHas(ks, false, Select(ks, false)[0]);
        assert Loose(ks[0]) && !Loose(ks[j]);
      }
    }
  }

  lemma RequiredFirst(ks: seq<Kept>)
    requires ks != [] && !Loose(ks[0])
    ensures OptionalLast(ks) <==> OptionalLast(ks[1..])
  {
    if OptionalLast(ks) {
      assert forall i :: 0 <= i < |ks| - 1 ==> ks[1..][i] == ks[i + 1];
    }
  }

  /** The indices of a list of fields. */
  function IndexList(fs: Fields): seq<nat> {
    if fs == NoFields then [] else [fs.index] + IndexList(fs.rest)
  }

  /** Each field has the operation and the zero value of its own type and tags. */
  predicate BuiltFrom(text: Text, ty: Ty, fs: Fields, ks: seq<Kept>)
    requires ty.TStruct?
  {
    if ks == [] then fs == NoFields
    else
      && fs.Field? && fs.index == ks[0].index < |ty.fields|
      && MakeOp(text, ty.fields[fs.index].ty, ks[0].tags) == Ok(fs.op)
      && fs.zero == Zero(ty.fields[fs.index].ty)
      && BuiltFrom(text, ty, fs.rest, ks[1..])
  }

  /** A list of fields holds those with its flag, each built from its own type and tags, in their order. */
  lemma {:induction false} FieldsInOrder(text: Text, ty: Ty, ks: seq<Kept>, optional: bool)
    requires ty.TStruct? && Increasing(ks, |ty.fields|) && MakeFields(text, ty, ks, optional).Ok?
    ensures var fs := MakeFields(text, ty, ks, optional).value;
            && BuiltFrom(text, ty, fs, Select(ks, optional))
            && (forall i, j :: 0 <= i < j < |IndexList(fs)| ==> IndexList(fs)[i] < IndexList(fs)[j])
            && (forall i: nat :: i in IndexList(fs) <==> IndexIn(ks, i, optional))
    decreases |ks|
  {
    hide MakeOp, IndexIn;
    if ks == [] {
      NoIndexIn(optional);
    } else {
      FieldsInOrder(text, ty, ks[1..], optional);
      IndexInFirst(ks, |ty.fields|, optional);
      var rest := IndexList(MakeFields(text, ty, ks[1..], optional).value);
      forall j | 0 <= j < |rest|
        ensures rest[j] > ks[0].index
      {
        assert rest[j] in rest && IndexIn(ks[1..], rest[j], optional);
      }
      if ks[0].tags.optional == optional {
        assert IndexList(MakeFields(text, ty, ks, optional).value) == [ks[0].index] + rest;
      }
    }
  }

  // ---------- what is trimmed ----------

  /** Trimming seen from the front. */
  lemma {:induction false} TrimFirst(ty: Ty, ks: seq<Kept>, v: Val)
    requires Typed(ty, v) && ks != []
    ensures Trimmed(ty, ks, v) == if Trimmed(ty, ks[1..], v) == [] && ZeroField(ty, ks[0], v) then []
                                  else [ks[0]] + Trimmed(ty, ks[1..], v)
    decreases |ks|
  {
    hide ZeroField, Typed;
    var n := |ks| - 1;
    if n > 0 {
      assert ks[1..][n - 1] == ks[n] && ks[1..][..n - 1] == ks[..n][1..] && ks[..n][0] == ks[0];
      if ZeroField(ty, ks[n], v) {
        TrimFirst(ty, ks[..n], v);
      } else {
        assert ks == [ks[0]] + ks[1..];
      }
    } else {
      assert ks[1..] == [] && ks[..0] == [] && ks == [ks[0]];
    }
  }

  /** Required fields are not trimmed, so only the optional ones behind them are. */
  lemma {:induction false} TrimArranged(ty: Ty, a: seq<Kept>, b: seq<Kept>, v: Val)
    requires Typed(ty, v) && forall i :: 0 <= i < |a| ==> !a[i].tags.optional
    ensures Trimmed(ty, a + b, v) == a + Trimmed(ty, b, v)
    decreases |b|
  {
    if b == [] {
      assert a + b == a;
    } else {
      assert (a + b)[..|a + b| - 1] == a + b[..|b| - 1] && (a + b)[|a + b| - 1] == b[|b| - 1];
      TrimArranged(ty, a, b[..|b| - 1], v);
    }
  }

  lemma {:induction false} WrittenConcat(text: Text, ty: Ty, a: seq<Kept>, b: seq<Kept>, v: Val)
    requires ty.TStruct? && Typed(ty, v)
    ensures WrittenFields(text, ty, a + b, v)
         == match WrittenFields(text, ty, a, v)
            case Err(x) => Err(x)
            case Ok(first) =>
              match WrittenFields(text, ty, b, v)
              case Err(x) => Err(x)
              case Ok(more) => Ok(first + more)
    decreases |a|
  {
    hide Written;
    if a == [] {
      assert a + b == b;
      assert forall items: seq<Item> :: [] + items == items;
    } else {
      assert (a + b)[1..] == a[1..] + b && (a + b)[0] == a[0];
      WrittenConcat(text, ty, a[1..], b, v);
      if WrittenFields(text, ty, a, v).Ok? && WrittenFields(text, ty, b, v).Ok? {
        var item := Written(text, ty.fields[a[0].index].ty, a[0].tags, v.fields[a[0].index]).value;
        var first, more := WrittenFields(text, ty, a[1..], v).value, WrittenFields(text, ty, b, v).value;
        assert [item] + (first + more) == ([item] + first) + more;
      }
    }
  }

  // ---------- the encoder writes it ----------

  /** The tree of a type writes the item of each of its values. */
  lemma {:induction false} EncIsWritten(text: Text, ty: Ty, tags: Tags, v: Val)
    requires MakeOp(text, ty, tags).Ok? && Typed(ty, v)
    ensures Fits(MakeOp(text, ty, tags).value, v)
    ensures Enc(MakeOp(text, ty, tags).value, v) == Written(text, ty, tags, v)
    decreases ty, 1, 0
  {
    MakeOpFits(text, ty, tags, v);
    match ty {
      case TNamed(u) =>
        if u.TBigInt? {
          var none: seq<Item> := [];
          assert none + none == none;
        } else {
          EncIsWritten(text, u, tags, v);
        }
      case TPtr(e) =>
        if v != VNil && !e.TBigInt? {
          EncIsWritten(text, e, NoTags(), v.to);
        }
      case TStruct(fs) => StructIsWritten(text, ty, tags, v);
      case TSlice(e) =>
        if !IsByte(e) {
          ElemsAreWritten(text, e, v.elems);
        }
      case _ =>
    }
  }

  lemma {:induction false} ElemsAreWritten(text: Text, e: Ty, vs: seq<Val>)
    requires MakeOp(text, e, NoTags()).Ok? && forall i :: 0 <= i < |vs| ==> Typed(e, vs[i])
    ensures AllFit(MakeOp(text, e, NoTags()).value, vs)
    ensures EncAll(MakeOp(text, e, NoTags()).value, vs) == WrittenAll(text, e, vs)
    decreases e, 2, |vs|
  {
    hide Enc, Written, MakeOp;
    if vs != [] {
      ElemsAreWritten(text, e, vs[..|vs| - 1]);
      EncIsWritten(text, e, NoTags(), vs[|vs| - 1]);
    }
  }

  lemma {:induction false} StructIsWritten(text: Text, ty: Ty, tags: Tags, v: Val)
    requires ty.TStruct? && MakeOp(text, ty, tags).Ok? && Typed(ty, v) && Fits(MakeOp(text, ty, tags).value, v)
    ensures Enc(MakeOp(text, ty, tags).value, v) == Written(text, ty, tags, v)
    decreases ty, 0, |ty.fields| + 1
  {
    var ks := Processed(text, ty.fields).value;
    KeptIncreasing(text, ty.fields, LastPublic(ty.fields));
    KeptCount(ks, |ty.fields|);
    RequiredAreWritten(text, ty, ks, v);
    OptionalAreWritten(text, ty, ks, v);
    forall k | k in Select(ks, false)
      ensures !k.tags.optional
    {
      SelectHas(ks, false, k);
    }
    TrimArranged(ty, Select(ks, false), Select(ks, true), v);
    WrittenConcat(text, ty, Select(ks, false), Trimmed(ty, Select(ks, true), v), v);
  }

  /** There are no more kept fields than fields. */
  lemma {:induction false} KeptCount(ks: seq<Kept>, n: nat)
    requires Increasing(ks, n)
    ensures |ks| <= n
    decreases |ks|
  {
    if ks != [] {
      KeptCount(ks[..|ks| - 1], ks[|ks| - 1].index);
    }
  }

  lemma {:induction false} RequiredAreWritten(text: Text, ty: Ty, ks: seq<Kept>, v: Val)
    requires ty.TStruct? && Typed(ty, v) && MakeFields(text, ty, ks, false).Ok?
    ensures var fs := MakeFields(text, ty, ks, false).value;
            FieldsFit(fs, v.fields) && EncFields(fs, v.fields) == WrittenFields(text, ty, Select(ks, false), v)
    decreases ty, 0, |ks|
  {
    hide Enc, Written, MakeOp;
    MakeFieldsFit(text, ty, ks, false, v);
    if ks != [] {
      RequiredAreWritten(text, ty, ks[1..], v);
      var k := ks[0];
      if !k.tags.optional {
        assert Select(ks, false)[1..] == Select(ks[1..], false);
        EncIsWritten(text, ty.fields[k.index].ty, k.tags, v.fields[k.index]);
      }
    }
  }

  lemma {:induction false} OptionalAreWritten(text: Text, ty: Ty, ks: seq<Kept>, v: Val)
    requires ty.TStruct? && Typed(ty, v) && MakeFields(text, ty, ks, true).Ok?
    ensures var fs, sel := MakeFields(text, ty, ks, true).value, Trimmed(ty, Select(ks, true), v);
            && FieldsFit(fs, v.fields) && (AnyNonZero(fs, v.fields) <==> sel != [])
            && EncOptional(fs, v.fields) == WrittenFields(text, ty, sel, v)
    decreases ty, 0, |ks|
  {
    hide Enc, Written, MakeOp, Trimmed, IsZero, NonZero, Zero;
    MakeFieldsFit(text, ty, ks, true, v);
    if ks == [] {
      NothingTrimmed(ty, v);
    } else {
      OptionalAreWritten(text, ty, ks[1..], v);
      var k := ks[0];
      if k.tags.optional {
        var sel := Select(ks, true);
        assert sel[0] == k && sel[1..] == Select(ks[1..], true);
        TrimFirst(ty, sel, v);
        NonZeroIff(ty.fields[k.index].ty, v.fields[k.index]);
        EncIsWritten(text, ty.fields[k.index].ty, k.tags, v.fields[k.index]);
        var t := Trimmed(ty, sel, v);
        if t != [] {
          assert t[0] == k && t[1..] == Trimmed(ty, sel[1..], v);
        }
      }
    }
  }

  lemma NothingTrimmed(ty: Ty, v: Val)
    requires Typed(ty, v)
    ensures Trimmed(ty, [], v) == []
  {
  }

  /** The default marker is of the kind, string or list, as which every value of the type is written. */
  lemma {:induction false} NilKindIsItemKind(text: Text, ty: Ty, tags: Tags, v: Val)
    requires MakeOp(text, ty, tags).Ok? && Typed(ty, v) && !ty.TBigInt? && !Underlying(ty).TPtr?
    requires Written(text, ty, tags, v).Ok?
    ensures DefaultNilValue(ty) == NilString <==> Written(text, ty, tags, v).value.Str?
    decreases ty
  {
    match ty {
      case TNamed(u) =>
        if !u.TBigInt? {
          NilKindIsItemKind(text, u, tags, v);
        }
      case _ =>
    }
  }

  /** The item is that of the field. */
  ghost predicate ItemIs(text: Text, ty: Ty, k: Kept, v: Val, item: Item)
    requires ty.TStruct? && Typed(ty, v)
  {
    k.index < |ty.fields| && Written(text, ty.fields[k.index].ty, k.tags, v.fields[k.index]) == Ok(item)
  }

  /** The list of a struct has one item for each field written, and item j is that of field j. */
  lemma {:induction false} ItemsOfFields(text: Text, ty: Ty, ks: seq<Kept>, v: Val)
    requires ty.TStruct? && Typed(ty, v) && WrittenFields(text, ty, ks, v).Ok?
    ensures var items := WrittenFields(text, ty, ks, v).value;
            && |items| == |ks|
            && forall j :: 0 <= j < |ks| ==> ItemIs(text, ty, ks[j], v, items[j])
    decreases |ks|
  {
    hide Written, IsZero;
    if ks != [] {
      ItemsOfFields(text, ty, ks[1..], v);
    }
  }

  /** A shorter list of fields, the rest being optional and zero, the last one not. */
  lemma {:induction false} TrimmedIs(ty: Ty, ks: seq<Kept>, v: Val)
    requires Typed(ty, v)
    ensures var t := Trimmed(ty, ks, v);
            && |t| <= |ks| && t == ks[..|t|]
            && (forall j :: |t| <= j < |ks| ==> ZeroField(ty, ks[j], v))
            && (t != [] ==> !ZeroField(ty, t[|t| - 1], v))
    decreases |ks|
  {
    hide ZeroField;
    if ks != [] && ZeroField(ty, ks[|ks| - 1], v) {
      TrimmedIs(ty, ks[..|ks| - 1], v);
    }
  }

  /** The items are those of the first fields in their order; the rest is optional and zero, the last one is not. */
  ghost predicate InOrder(text: Text, ty: Ty, ks: seq<Kept>, v: Val, items: seq<Item>)
    requires ty.TStruct? && Typed(ty, v)
  {
    && |items| <= |ks|
    && (forall j :: 0 <= j < |items| ==> ItemIs(text, ty, ks[j], v, items[j]))
    && (forall j :: |items| <= j < |ks| ==> ZeroField(ty, ks[j], v))
    && (items != [] ==> !ZeroField(ty, ks[|items| - 1], v))
  }

  /**
   With its optional fields last, as ProcessFields is to check, a struct is written as the list of its
   kept fields in the order of their declaration: item j is that of the j-th kept field, by its own
   type and tags, up to the last field that is required or not zero.
   */
  lemma StructInOrder(text: Text, ty: Ty, tags: Tags, v: Val)
    requires ty.TStruct? && MakeOp(text, ty, tags).Ok? && Typed(ty, v)
    requires OptionalLast(Processed(text, ty.fields).value)
    ensures var op := MakeOp(text, ty, tags).value;
            && Fits(op, v)
            && match Enc(op, v)
               case Ok(List(items)) => InOrder(text, ty, Processed(text, ty.fields).value, v, items)
               case Ok(Str(_)) => false
               case Err(_) => true
  {
    hide Enc, Fits, InOrder, OptionalLast, Typed;
    EncIsWritten(text, ty, tags, v);
    ArrangedIsKept(text, ty, tags);
    var ks := Processed(text, ty.fields).value;
    var written := Trimmed(ty, ks, v);
    if WrittenFields(text, ty, written, v).Ok? {
      TrimmedInOrder(text, ty, ks, v);
    }
  }

  lemma ArrangedIsKept(text: Text, ty: Ty, tags: Tags)
    requires ty.TStruct? && MakeOp(text, ty, tags).Ok? && OptionalLast(Processed(text, ty.fields).value)
    ensures Arranged(Processed(text, ty.fields).value) == Processed(text, ty.fields).value
  {
    var ks := Processed(text, ty.fields).value;
    NoTails(text, ty, ks);
    ArrangedIff(ks);
  }

  lemma TrimmedInOrder(text: Text, ty: Ty, ks: seq<Kept>, v: Val)
    requires ty.TStruct? && Typed(ty, v) && WrittenFields(text, ty, Trimmed(ty, ks, v), v).Ok?
    ensures InOrder(text, ty, ks, v, WrittenFields(text, ty, Trimmed(ty, ks, v), v).value)
  {
    hide Trimmed, ZeroField, WrittenFields;
    var t := Trimmed(ty, ks, v);
    TrimmedIs(ty, ks, v);
    ItemsOfFields(text, ty, t, v);
    forall j | 0 <= j < |t|
      ensures t[j] == ks[j]
    {
    }
  }

  /** A field tagged tail is refused. */
  lemma {:induction false} NoTails(text: Text, ty: Ty, ks: seq<Kept>)
    requires ty.TStruct? && MakeFields(text, ty, ks, false).Ok? && MakeFields(text, ty, ks, true).Ok?
    ensures forall i :: 0 <= i < |ks| ==> !ks[i].tags.tail
    decreases |ks|
  {
    hide MakeOp;
    if ks != [] {
      NoTails(text, ty, ks[1..]);
      assert ks == [ks[0]] + ks[1..];
    }
  }

  // ---------- the decoder reads values of the type ----------

  lemma {:induction false} DecTyped(text: Text, ty: Ty, tags: Tags, item: Item)
    requires MakeOp(text, ty, tags).Ok? && Dec(MakeOp(text, ty, tags).value, item).Ok?
    ensures Typed(ty, Dec(MakeOp(text, ty, tags).value, item).value)
    decreases ty, 1, 0
  {
    match ty {
      case TUint(size) =>
        BigEndianBound(item.bytes);
        PowGrows(256, |item.bytes|, size);
      case TNamed(u) =>
        if !u.TBigInt? {
          DecTyped(text, u, tags, item);
        }
      case TPtr(e) =>
        if !e.TBigInt? && Dec(MakeOp(text, ty, tags).value, item).value != VNil {
          DecTyped(text, e, NoTags(), item);
        }
      case TStruct(fs) => StructDecTyped(text, ty, tags, item);
      case TSlice(e) =>
        if !IsByte(e) {
          ElemsDecTyped(text, e, item.items);
        }
      case _ =>
    }
  }

  lemma {:induction false} ElemsDecTyped(text: Text, e: Ty, items: seq<Item>)
    requires MakeOp(text, e, NoTags()).Ok? && DecAll(MakeOp(text, e, NoTags()).value, items).Ok?
    ensures var vs := DecAll(MakeOp(text, e, NoTags()).value, items).value; forall i :: 0 <= i < |vs| ==> Typed(e, vs[i])
    decreases e, 2, |items|
  {
    hide MakeOp, Dec;
    if items != [] {
      ElemsDecTyped(text, e, items[..|items| - 1]);
      DecTyped(text, e, NoTags(), items[|items| - 1]);
    }
  }

  lemma {:induction false} StructDecTyped(text: Text, ty: Ty, tags: Tags, item: Item)
    requires ty.TStruct? && MakeOp(text, ty, tags).Ok? && Dec(MakeOp(text, ty, tags).value, item).Ok?
    ensures Typed(ty, Dec(MakeOp(text, ty, tags).value, item).value)
    decreases ty, 0, |ty.fields| + 1
  {
    var ks := Processed(text, ty.fields).value;
    KeptIncreasing(text, ty.fields, LastPublic(ty.fields));
    KeptCount(ks, |ty.fields|);
    ZeroTyped(ty);
    var c := Cursor(item.items, false);
    var required := MakeFields(text, ty, ks, false).value;
    FieldsDecTyped(text, ty, ks, c, Zero(ty).fields);
    var (vs, rest) := DecFields(required, c, Zero(ty).fields).value;
    OptionalDecTyped(text, ty, ks, rest, vs);
  }

  lemma {:induction false} FieldsDecTyped(text: Text, ty: Ty, ks: seq<Kept>, c: Cursor, vs: seq<Val>)
    requires ty.TStruct? && MakeFields(text, ty, ks, false).Ok? && Typed(ty, VStruct(vs))
    requires DecFields(MakeFields(text, ty, ks, false).value, c, vs).Ok?
    ensures Typed(ty, VStruct(DecFields(MakeFields(text, ty, ks, false).value, c, vs).value.0))
    decreases ty, 0, |ks|
  {
    hide MakeOp, Dec, After;
    if ks != [] {
      var k := ks[0];
      if k.tags.optional {
        FieldsDecTyped(text, ty, ks[1..], c, vs);
      } else {
        var fs := MakeFields(text, ty, ks, false).value;
        DecTyped(text, ty.fields[k.index].ty, k.tags, c.items[0]);
        FieldsDecTyped(text, ty, ks[1..], After(fs.op, c), Put(vs, k.index, Dec(fs.op, c.items[0]).value));
      }
    }
  }

  lemma {:induction false} OptionalDecTyped(text: Text, ty: Ty, ks: seq<Kept>, c: Cursor, vs: seq<Val>)
    requires ty.TStruct? && MakeFields(text, ty, ks, true).Ok? && Typed(ty, VStruct(vs))
    requires DecOptional(MakeFields(text, ty, ks, true).value, c, vs).Ok?
    ensures Typed(ty, VStruct(DecOptional(MakeFields(text, ty, ks, true).value, c, vs).value.0))
    decreases ty, 0, |ks|
  {
    hide MakeOp, Dec, After;
    if ks != [] {
      var k := ks[0];
      if !k.tags.optional {
        OptionalDecTyped(text, ty, ks[1..], c, vs);
      } else if More(c) {
        var fs := MakeFields(text, ty, ks, true).value;
        DecTyped(text, ty.fields[k.index].ty, k.tags, c.items[0]);
        OptionalDecTyped(text, ty, ks[1..], After(fs.op, c), Put(vs, k.index, Dec(fs.op, c.items[0]).value));
      }
    }
  }

  // ---------- the whole generator ----------

  /** For every type the generator accepts, EncodeRLP writes the item that the type and the tags say. */
  lemma GeneratedEncoderWrites(text: Text, ty: Ty, v: Val)
    requires MakeOp(text, ty, NoTags()).Ok? && MakeOp(text, ty, NoTags()).value.StructOp? && Typed(ty, v)
    ensures Encode(MakeOp(text, ty, NoTags()).value, v)
         == match Written(text, ty, NoTags(), v) case Ok(item) => Ok([item]) case Err(x) => Err(x)
  {
    hide Encode, Enc, Written, MakeOp;
    EncIsWritten(text, ty, NoTags(), v);
    EncodeIsEnc(MakeOp(text, ty, NoTags()).value, v);
  }

  /**
   Whatever DecodeRLP accepts from the head of a stream is one item and gives a value of the type, and
   that item is the one the type and the tags say exactly when it is tight.
   */
  lemma GeneratedDecoderReads(text: Text, ty: Ty, item: Item, rest: seq<Item>)
    requires MakeOp(text, ty, NoTags()).Ok? && MakeOp(text, ty, NoTags()).value.StructOp?
    requires Decode(MakeOp(text, ty, NoTags()).value, [item] + rest).Ok?
    ensures var op := MakeOp(text, ty, NoTags()).value;
            var (v, left) := Decode(op, [item] + rest).value;
            left == rest && Typed(ty, v) && (Written(text, ty, NoTags(), v) == Ok(item) <==> Tight(op, item))
  {
    hide Decode, Encode, Enc, Dec, Written, MakeOp, Tight;
    var op := MakeOp(text, ty, NoTags()).value;
    MakeOpWellFormed(text, ty, NoTags());
    WellFormedPlaced(op);
    DecodeIsDec(op, item, rest);
    DecTyped(text, ty, NoTags(), item);
    EncOfDec(op, item);
    EncIsWritten(text, ty, NoTags(), Dec(op, item).value);
  }
}
