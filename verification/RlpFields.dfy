/**
 rlp/internal/rlpstruct/rlpstruct.go: struct tags and the choice of fields. The text departs in
 three places from its comments, its error messages or the generator's expected output; Text says
 which reading is meant.
 */
module RlpFields {
  import opened Wrappers
  import opened RlpOps

  /** The types of Go that the generator tells apart; TNamed is a defined type. */
  datatype Ty =
    | TBool
    | TUint(size: nat)          // uint8 to uint64, size in bytes
    | TPlatformUint             // uint and uintptr
    | TString
    | TBigInt                   // math/big.Int
    | TPtr(elem: Ty)
    | TStruct(fields: seq<TyField>)
    | TSlice(elem: Ty)
    | TArray(len: nat, elem: Ty)
    | TNamed(under: Ty)
    | TOther                    // signed, floating, interface, map, ...

  /** tag is the rlp struct tag split at its commas, each part without its surrounding spaces. */
  datatype TyField = TyField(name: string, exported: bool, ty: Ty, tag: seq<string>)

  datatype Text = AsWritten | Intended

  datatype Tags = Tags(nilKind: NilKind, nilOK: bool, optional: bool, tail: bool, ignored: bool)

  function NoTags(): Tags {
    Tags(NilString, false, false, false, false)
  }

  datatype TagError =
    | NotAPointer | NotLast | NotASlice | UnknownTag | AlsoTail | AlsoOptional
    | MustBeOptional(field: string, preceding: string)

  /** A type's underlying type. The struct beneath big.Int has no exported field. */
  function Underlying(ty: Ty): Ty {
    match ty
    case TNamed(u) => if u.TBigInt? then TStruct([]) else Underlying(u)
    case _ => ty
  }

  function Depth(ty: Ty): nat {
    if ty.TNamed? then 1 + Depth(ty.under) else 0
  }

  /** resolveUnderlying */
  method ResolveUnderlying(ty: Ty) returns (r: Ty)
    ensures r == Underlying(ty) && !r.TNamed?
  {
    r := ty;
    while r.TNamed?
      invariant Underlying(r) == Underlying(ty)
      decreases Depth(r)
    {
      r := if r.under.TBigInt? then TStruct([]) else r.under;
    }
  }

  predicate IsByte(ty: Ty) {
    Underlying(ty) == TUint(1)
  }

  /** DefaultNilValue */
  function DefaultNilValue(ty: Ty): NilKind {
    match Underlying(ty)
    case TBool => NilString
    case TUint(_) => NilString
    case TPlatformUint => NilString
    case TString => NilString
    case TSlice(e) => if IsByte(e) then NilString else NilList
    case TArray(_, e) => if IsByte(e) then NilString else NilList
    case _ => NilList
  }

  // ---------- parseTag ----------

  /** The word for a tail field: the comment of Tags says tail, the switch says tali. */
  function TailWord(text: Text): string {
    if text.AsWritten? then "tali" else "tail"
  }

  /** The marker of rlp:"nil": the text asks the pointer type itself, not what it points to. */
  function NilWordKind(text: Text, ty: Ty): NilKind
    requires Underlying(ty).TPtr?
  {
    DefaultNilValue(if text.AsWritten? then ty else Underlying(ty).elem)
  }

  /** One turn of parseTag's loop. */
  function ParseWord(text: Text, ty: Ty, isLast: bool, w: string, ts: Tags): Result<Tags, TagError> {
    if w == "" then Ok(ts)
    else if w == "-" then Ok(ts.(ignored := true))
    else if w == "nil" || w == "nilString" || w == "nilList" then
      if !Underlying(ty).TPtr? then Err(NotAPointer)
      else
        var kind := if w == "nil" then NilWordKind(text, ty) else if w == "nilString" then NilString else NilList;
        Ok(ts.(nilOK := true, nilKind := kind))
    else if w == "optional" then
      if ts.tail then Err(AlsoTail) else Ok(ts.(optional := true))
    else if w == TailWord(text) then
      if !isLast then Err(NotLast)
      else if ts.optional then Err(AlsoOptional)
      else if !Underlying(ty).TSlice? then Err(NotASlice)
      else Ok(ts.(tail := true))
    else Err(UnknownTag)
  }

  function ParseWords(text: Text, ty: Ty, isLast: bool, words: seq<string>): Result<Tags, TagError> {
    if words == [] then Ok(NoTags())
    else match ParseWords(text, ty, isLast, words[..|words| - 1])
      case Err(e) => Err(e)
      case Ok(ts) => ParseWord(text, ty, isLast, words[|words| - 1], ts)
  }

  lemma {:induction false} ParseStops(text: Text, ty: Ty, isLast: bool, words: seq<string>, n: nat)
    requires n <= |words| && ParseWords(text, ty, isLast, words[..n]).Err?
    ensures ParseWords(text, ty, isLast, words) == ParseWords(text, ty, isLast, words[..n])
    decreases |words|
  {
    if n == |words| {
      assert words[..n] == words;
    } else {
      assert words[..|words| - 1][..n] == words[..n];
      ParseStops(text, ty, isLast, words[..|words| - 1], n);
    }
  }

  /** parseTag */
  method ParseTag(text: Text, f: TyField, isLast: bool) returns (r: Result<Tags, TagError>)
    ensures r == ParseWords(text, f.ty, isLast, f.tag)
  {
    var ts := NoTags();
    for i := 0 to |f.tag|
      invariant ParseWords(text, f.ty, isLast, f.tag[..i]) == Ok(ts)
    {
      assert f.tag[..i + 1][..i] == f.tag[..i];
      var step := ParseWord(text, f.ty, isLast, f.tag[i], ts);
      if step.Err? {
        ParseStops(text, f.ty, isLast, f.tag, i + 1);
        return step;
      }
      ts := step.value;
    }
    assert f.tag[..|f.tag|] == f.tag;
    return Ok(ts);
  }

  // ---------- ProcessFields ----------

  /** A field that takes part in the encoding. */
  datatype Kept = Kept(index: nat, tags: Tags)

  /** lastPublicField: the index of the last exported field, 0 when there is none. */
  function LastPublic(fs: seq<TyField>): nat {
    if fs == [] then 0 else if fs[|fs| - 1].exported then |fs| - 1 else LastPublic(fs[..|fs| - 1])
  }

  method LastPublicField(fs: seq<TyField>) returns (last: nat)
    ensures last == LastPublic(fs)
    ensures forall i :: last < i < |fs| ==> !fs[i].exported
    ensures (exists i :: 0 <= i < |fs| && fs[i].exported) ==> last < |fs| && fs[last].exported
  {
    last := 0;
    for i := 0 to |fs|
      invariant last == LastPublic(fs[..i])
      invariant forall j :: last < j < i ==> !fs[j].exported
      invariant (exists j :: 0 <= j < i && fs[j].exported) ==> last < i && fs[last].exported
    {
      assert fs[..i + 1][..i] == fs[..i];
      if fs[i].exported {
        last := i;
      }
    }
    assert fs[..|fs|] == fs;
  }

  /** The exported fields not tagged "-", with their tags. */
  function KeptFields(text: Text, fs: seq<TyField>, last: nat): Result<seq<Kept>, TagError> {
    if fs == [] then Ok([])
    else
      var n := |fs| - 1;
      match KeptFields(text, fs[..n], last)
      case Err(e) => Err(e)
      case Ok(ks) =>
        if !fs[n].exported then Ok(ks)
        else match ParseWords(text, fs[n].ty, n == last, fs[n].tag)
          case Err(e) => Err(e)
          case Ok(ts) => Ok(if ts.ignored then ks else ks + [Kept(n, ts)])
  }

  lemma {:induction false} KeptStops(text: Text, fs: seq<TyField>, last: nat, n: nat)
    requires n <= |fs| && KeptFields(text, fs[..n], last).Err?
    ensures KeptFields(text, fs, last) == KeptFields(text, fs[..n], last)
    decreases |fs|
  {
    if n == |fs| {
      assert fs[..n] == fs;
    } else {
      assert fs[..|fs| - 1][..n] == fs[..n];
      KeptStops(text, fs[..|fs| - 1], last, n);
    }
  }

  predicate Loose(k: Kept) {
    k.tags.optional || k.tags.tail
  }

  predicate AnyLoose(ks: seq<Kept>) {
    exists i :: 0 <= i < |ks| && Loose(ks[i])
  }

  /** A required field is refused after an optional one; in the text, when there is none before it. */
  predicate Refused(text: Text, before: seq<Kept>, k: Kept) {
    !Loose(k) && if text.AsWritten? then !AnyLoose(before) else AnyLoose(before)
  }

  predicate Checked(text: Text, ks: seq<Kept>) {
    forall i :: 0 <= i < |ks| ==> !Refused(text, ks[..i], ks[i])
  }

  /** The name of the first optional or tail field, empty when there is none. */
  function FirstLooseName(fs: seq<TyField>, ks: seq<Kept>): string
    requires forall i :: 0 <= i < |ks| ==> ks[i].index < |fs|
  {
    if ks == [] then "" else if Loose(ks[0]) then fs[ks[0].index].name else FirstLooseName(fs, ks[1..])
  }

  /** Field i is the first one refused, and the error names it and the first optional field before it. */
  predicate RefusedAt(text: Text, fs: seq<TyField>, ks: seq<Kept>, i: int, e: TagError)
    requires forall j :: 0 <= j < |ks| ==> ks[j].index < |fs|
  {
    && 0 <= i < |ks| && Checked(text, ks[..i]) && Refused(text, ks[..i], ks[i])
    && e == MustBeOptional(fs[ks[i].index].name, FirstLooseName(fs, ks[..i]))
  }

  lemma {:induction false} FirstLooseAppend(fs: seq<TyField>, ks: seq<Kept>, k: Kept)
    requires (forall i :: 0 <= i < |ks| ==> ks[i].index < |fs|) && k.index < |fs|
    ensures AnyLoose(ks + [k]) <==> AnyLoose(ks) || Loose(k)
    ensures FirstLooseName(fs, ks + [k])
         == if AnyLoose(ks) then FirstLooseName(fs, ks) else if Loose(k) then fs[k.index].name else ""
    decreases |ks|
  {
    assert (ks + [k])[|ks|] == k;
    if AnyLoose(ks) {
      var i :| 0 <= i < |ks| && Loose(ks[i]);
      assert Loose((ks + [k])[i]);
    }
    if ks != [] {
      assert (ks + [k])[1..] == ks[1..] + [k];
      FirstLooseAppend(fs, ks[1..], k);
      LooseFirst(ks);
    } else {
      assert (ks + [k])[1..] == [];
    }
  }

  lemma LooseFirst(ks: seq<Kept>)
    requires ks != []
    ensures AnyLoose(ks) <==> Loose(ks[0]) || AnyLoose(ks[1..])
  {
    if AnyLoose(ks[1..]) {
      var i :| 0 <= i < |ks| - 1 && Loose(ks[1..][i]);
      assert Loose(ks[i + 1]);
    }
    if AnyLoose(ks) && !Loose(ks[0]) {
      var i :| 0 <= i < |ks| && Loose(ks[i]);
      assert Loose(ks[1..][i - 1]);
    }
  }

  lemma CheckedAppend(text: Text, ks: seq<Kept>, i: nat)
    requires i < |ks| && Checked(text, ks[..i]) && !Refused(text, ks[..i], ks[i])
    ensures Checked(text, ks[..i + 1])
  {
    var more := ks[..i + 1];
    forall j | 0 <= j < |more|
      ensures !Refused(text, more[..j], more[j])
    {
      assert more[..j] == ks[..j];
      if j < i {
        assert ks[..i][..j] == ks[..j] && ks[..i][j] == ks[j];
      }
    }
  }

  /** The second loop of ProcessFields. */
  method CheckOptional(text: Text, fs: seq<TyField>, ks: seq<Kept>) returns (r: Option<TagError>)
    requires forall i :: 0 <= i < |ks| ==> ks[i].index < |fs|
    ensures r.None? <==> Checked(text, ks)
    ensures r.Some? ==> exists i :: RefusedAt(text, fs, ks, i, r.value)
  {
    hide Checked, AnyLoose;
    var anyOptional, firstOptionalName := false, "";
    assert Checked(text, ks[..0]) && !AnyLoose(ks[..0]) by {
      NothingLoose(text);
    }
    for i := 0 to |ks|
      invariant anyOptional == AnyLoose(ks[..i]) && firstOptionalName == FirstLooseName(fs, ks[..i])
      invariant Checked(text, ks[..i]) && (!anyOptional ==> firstOptionalName == "")
    {
      assert ks[..i + 1] == ks[..i] + [ks[i]];
      FirstLooseAppend(fs, ks[..i], ks[i]);
      var name := fs[ks[i].index].name;
      if ks[i].tags.optional || ks[i].tags.tail {
        if !anyOptional {
          firstOptionalName := name;
        }
        anyOptional := true;
      } else if if text.AsWritten? then !anyOptional else anyOptional {
        r := Some(MustBeOptional(name, firstOptionalName));
        assert RefusedAt(text, fs, ks, i, r.value);
        RefusedNotChecked(text, ks, i);
        return r;
      }
      CheckedAppend(text, ks, i);
    }
    assert ks[..|ks|] == ks;
    return None;
  }

  lemma NothingLoose(text: Text)
    ensures Checked(text, []) && !AnyLoose([])
  {
  }

  lemma RefusedNotChecked(text: Text, ks: seq<Kept>, i: nat)
    requires i < |ks| && Refused(text, ks[..i], ks[i])
    ensures !Checked(text, ks)
  {
  }

  /** ProcessFields; the error of the second loop names the refused field and the first optional one. */
  method ProcessFields(text: Text, fs: seq<TyField>) returns (r: Result<seq<Kept>, TagError>)
    ensures KeptFields(text, fs, LastPublic(fs)).Err? ==> r == Err(KeptFields(text, fs, LastPublic(fs)).error)
    ensures KeptFields(text, fs, LastPublic(fs)).Ok? ==>
              var ks := KeptFields(text, fs, LastPublic(fs)).value;
              && (forall j :: 0 <= j < |ks| ==> ks[j].index < |fs|)
              && if Checked(text, ks) then r == Ok(ks) else r.Err? && exists i :: RefusedAt(text, fs, ks, i, r.error)
  {
    hide Checked, AnyLoose, RefusedAt;
    var lastPublic := LastPublicField(fs);
    var ks: seq<Kept> := [];
    for i := 0 to |fs|
      invariant KeptFields(text, fs[..i], lastPublic) == Ok(ks)
      invariant forall j :: 0 <= j < |ks| ==> ks[j].index < i
    {
      assert fs[..i + 1][..i] == fs[..i];
      if fs[i].exported {
        var tags := ParseTag(text, fs[i], i == lastPublic);
        if tags.Err? {
          KeptStops(text, fs, lastPublic, i + 1);
          return Err(tags.error);
        }
        if !tags.value.ignored {
          ks := ks + [Kept(i, tags.value)];
        }
      }
    }
    assert fs[..|fs|] == fs;
    var refused := CheckOptional(text, fs, ks);
    match refused {
      case Some(e) => return Err(e);
      case None => return Ok(ks);
    }
  }

  function Processed(text: Text, fs: seq<TyField>): Option<seq<Kept>> {
    match KeptFields(text, fs, LastPublic(fs))
    case Err(_) => None
    case Ok(ks) => if Checked(text, ks) then Some(ks) else None
  }

  // ---------- what the check accepts ----------

  predicate OptionalLast(ks: seq<Kept>) {
    forall i, j :: 0 <= i < j < |ks| && Loose(ks[i]) ==> Loose(ks[j])
  }

  /** As its message says, the check accepts exactly the structs whose optional fields come last. */
  lemma IntendedCheckIff(ks: seq<Kept>)
    ensures Checked(Intended, ks) <==> OptionalLast(ks)
  {
  }

  /** As written it accepts exactly those whose first field, if any, is optional or tail. */
  lemma AsWrittenCheckIff(ks: seq<Kept>)
    ensures Checked(AsWritten, ks) <==> ks == [] || Loose(ks[0])
  {
  }

  /** The two verdicts agree when there is no field, all are optional, or the order is bad and the first is required. */
  lemma CheckAsWrittenIff(ks: seq<Kept>)
    ensures (Checked(AsWritten, ks) <==> Checked(Intended, ks)) <==>
            ks == [] || (if Loose(ks[0]) then forall i :: 0 <= i < |ks| ==> Loose(ks[i]) else !OptionalLast(ks))
  {
  }

  /** A struct of one plain field is refused as written. */
  lemma PlainStructRefused()
    ensures var fs := [TyField("A", true, TUint(8), [""])];
            Processed(AsWritten, fs) == None && Processed(Intended, fs) == Some([Kept(0, NoTags())])
  {
    PlainField(AsWritten);
    PlainField(Intended);
    AsWrittenCheckIff([Kept(0, NoTags())]);
    IntendedCheckIff([Kept(0, NoTags())]);
  }

  lemma PlainField(text: Text)
    ensures var fs := [TyField("A", true, TUint(8), [""])];
            LastPublic(fs) == 0 && KeptFields(text, fs, 0) == Ok([Kept(0, NoTags())])
  {
    var fs, words := [TyField("A", true, TUint(8), [""])], [""];
    assert words[..0] == [] && fs[..0] == [];
    assert ParseWords(text, TUint(8), true, words[..0]) == Ok(NoTags());
    assert ParseWords(text, TUint(8), true, words) == Ok(NoTags());
    assert KeptFields(text, fs[..0], 0) == Ok([]);
    assert [] + [Kept(0, NoTags())] == [Kept(0, NoTags())];
  }

  // ---------- the tag words as written ----------

  /** rlp:"tail" is never accepted as written. */
  lemma {:induction false} TailIsUnknown(ty: Ty, isLast: bool, words: seq<string>)
    requires "tail" in words
    ensures ParseWords(AsWritten, ty, isLast, words).Err?
    decreases |words|
  {
    var n := |words| - 1;
    assert words == words[..n] + [words[n]];
    if "tail" in words[..n] {
      TailIsUnknown(ty, isLast, words[..n]);
    }
  }

  predicate NilWord(w: string) {
    w == "nil" || w == "nilString" || w == "nilList"
  }

  /** The last nil word, or the empty one. */
  function LastNil(words: seq<string>): string {
    if words == [] then ""
    else if NilWord(words[|words| - 1]) then words[|words| - 1]
    else LastNil(words[..|words| - 1])
  }

  /** Tags that differ at most in the nil kind. */
  predicate Similar(a: Tags, b: Tags) {
    a.(nilKind := b.nilKind) == b
  }

  lemma WordAsWritten(ty: Ty, isLast: bool, w: string, a: Tags, b: Tags)
    requires w != "tail" && w != "tali" && Similar(a, b)
    ensures var a', b' := ParseWord(AsWritten, ty, isLast, w, a), ParseWord(Intended, ty, isLast, w, b);
            && (a'.Ok? <==> b'.Ok?)
            && (a'.Ok? ==>
                && Similar(a'.value, b'.value)
                && (if NilWord(w)
                    then Underlying(ty).TPtr? && (a'.value.nilKind == b'.value.nilKind
                                                  <==> !(w == "nil" && DefaultNilValue(Underlying(ty).elem) == NilString))
                    else a'.value.nilKind == a.nilKind && b'.value.nilKind == b.nilKind))
  {
    assert Underlying(ty).TPtr? ==> DefaultNilValue(ty) == NilList;
  }

  /**
   Without tail words the text accepts what it should, and gives the same tags unless the nil
   kind comes from rlp:"nil" on a pointer to a type whose default is the empty string.
   */
  lemma {:induction false} NilAsWrittenIff(ty: Ty, isLast: bool, words: seq<string>)
    requires "tail" !in words && "tali" !in words
    ensures var a, b := ParseWords(AsWritten, ty, isLast, words), ParseWords(Intended, ty, isLast, words);
            && (a.Ok? <==> b.Ok?)
            && (a.Ok? ==>
                && Similar(a.value, b.value)
                && (LastNil(words) != "" ==> Underlying(ty).TPtr?)
                && (a == b <==> !(LastNil(words) == "nil" && DefaultNilValue(Underlying(ty).elem) == NilString)))
    decreases |words|
  {
    hide ParseWord, DefaultNilValue;
    if words != [] {
      var n := |words| - 1;
      assert words == words[..n] + [words[n]];
      NilAsWrittenIff(ty, isLast, words[..n]);
      var a, b := ParseWords(AsWritten, ty, isLast, words[..n]), ParseWords(Intended, ty, isLast, words[..n]);
      if a.Ok? {
        WordAsWritten(ty, isLast, words[n], a.value, b.value);
      }
    }
  }
}
