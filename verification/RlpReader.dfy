/**
 The decoder half of rlp/rlpgen/gen.go: genDecode as a compiler from operation trees to statements
 over a stream of items, what the statements do, and that the generated code reads one item as
 the operation tree does.
 */
module RlpReader {
  import opened Wrappers
  import opened RlpOps

  // ---------- the generated language ----------

  /** A temporary, &e and *e. */
  datatype Expr = Tmp(t: nat) | Ref(e: Expr) | Star(e: Expr)

  datatype Code =
    | Nop
    | Then(first: Code, rest: Code)
    | Read(t: nat, k: Basic)                     // t, err := dec.Bool() and so on; return on error
    | ReadBigInt(t: nat)                         // t, err := dec.BigInt()
    | Convert(t: nat, e: Expr)                   // t := T(e)
    | Declare(t: nat, zero: Val)                 // var t T
    | ReadBytes(t: nat)                          // dec.ReadBytes(t[:])
    | EnterList                                  // dec.List()
    | LeaveList                                  // dec.ListEnd()
    | Assign(t: nat, i: nat, e: Expr)            // t.field = e
    | Set(t: nat, e: Expr)                       // t = e
    | Append(t: nat, e: Expr)                    // t = append(t, e)
    | IfMore(body: Code)                         // if dec.MoreDataInList() { body }
    | WhileMore(body: Code)                      // for dec.MoreDataInList() { body }
    | AskKind(kind: nat, size: nat)              // kind, size, err := dec.Kind(); return on error
    | IfValue(kind: nat, size: nat, want: NilKind, body: Code)
                                                 // if size != 0 || kind != want { body }

  // ---------- genDecode ----------

  /** The expression of the result, the code, and the next free temporary. */
  function GenDecode(op: Op, k: nat): (Expr, Code, nat)
    decreases op, 0
  {
    match op
    case BasicOp(b, conv) =>
      if conv then (Tmp(k + 1), Then(Read(k, b), Convert(k + 1, Tmp(k))), k + 2) else (Tmp(k), Read(k, b), k + 1)
    case ByteArrayOp(n) => (Tmp(k), Then(Declare(k, VArray(seq(n, i => 0))), ReadBytes(k)), k + 1)
    case BigIntOp(pointer) => (if pointer then Tmp(k) else Star(Tmp(k)), ReadBigInt(k), k + 1)
    case PtrOp(elem, nilOK, nilValue) =>
      var (result, code, k') := GenDecode(elem, k);
      if !nilOK then (Ref(result), code, k')
      else (Tmp(k'),
            Then(Declare(k', VNil), NilCheck(k', nilValue, Then(code, Set(k', Ref(result))))),
            k' + 3)
    case StructOp(zero, fields, optional) =>
      var (required, k') := GenDecFields(fields, k, k + 1);
      var (more, k'') := GenDecOptional(optional, k, k');
      (Tmp(k), Then(Declare(k, VStruct(zero)), Then(EnterList, Then(required, Then(more, LeaveList)))), k'')
    case SliceOp(elem) =>
      var (result, code, k') := GenDecode(elem, k + 1);
      (Tmp(k),
       Then(Declare(k, VSlice(true, [])), Then(EnterList, Then(WhileMore(Then(code, Append(k, result))), LeaveList))),
       k')
  }

  /** The kind and the size go to the two temporaries after that of the pointer. */
  function NilCheck(t: nat, want: NilKind, body: Code): Code {
    Then(AskKind(t + 1, t + 2), IfValue(t + 1, t + 2, want, body))
  }

  function GenDecFields(fs: Fields, s: nat, k: nat): (Code, nat)
    decreases fs, 0
  {
    match fs
    case NoFields => (Nop, k)
    case Field(i, _, op, rest) =>
      var (result, code, k') := GenDecode(op, k);
      var (more, k'') := GenDecFields(rest, s, k');
      (Then(code, Then(Assign(s, i, result), more)), k'')
  }

  /** decodeOptionalFields: each field inside the condition of the one before. */
  function GenDecOptional(fs: Fields, s: nat, k: nat): (Code, nat)
    decreases fs, 0
  {
    match fs
    case NoFields => (Nop, k)
    case Field(i, _, op, rest) =>
      var (result, code, k') := GenDecode(op, k);
      var (more, k'') := GenDecOptional(rest, s, k');
      (IfMore(Then(code, Then(Assign(s, i, result), more))), k'')
  }

  // ---------- running the code ----------

  datatype Kind = ByteKind | StringKind | ListKind

  datatype Cell = Value(v: Val) | KindOf(kind: Kind) | SizeOf(size: nat)

  type Env = map<nat, Cell>

  /** The temporaries, what is unread of the outer lists, outermost first, and the place in the innermost one. */
  datatype Reader = Reader(env: Env, outer: seq<seq<Item>>, at: Cursor)

  function Eval(e: Expr, env: Env): Option<Val> {
    match e
    case Tmp(t) => if t in env && env[t].Value? then Some(env[t].v) else None
    case Ref(e') =>
      (match Eval(e', env)
       case Some(v) => Some(VPtr(v))
       case None => None)
    case Star(e') =>
      match Eval(e', env)
      case Some(VPtr(v)) => Some(v)
      case _ => None
  }

  /** A single byte below 128 is its own encoding, of kind Byte and size 0. */
  function ItemKind(item: Item): Kind {
    if item.List? then ListKind else if |item.bytes| == 1 && item.bytes[0] < 128 then ByteKind else StringKind
  }

  /** The size of the content; of a list, only whether it is 0 matters here. */
  function ItemSize(item: Item): nat {
    if item.List? then |item.items| else if ItemKind(item) == ByteKind then 0 else |item.bytes|
  }

  function WantKind(k: NilKind): Kind {
    if k.NilList? then ListKind else StringKind
  }

  /** The next item of the innermost open list, whether or not its header is held already. */
  predicate HasNext(d: Reader) {
    d.at.items != []
  }

  function NextItem(d: Reader): Item
    requires HasNext(d)
  {
    d.at.items[0]
  }

  function Taken(c: Cursor): Cursor
    requires c.items != []
  {
    Cursor(c.items[1..], false)
  }

  /** A decoder method: takes the next item, or fails at the end of the list or on a bad item. */
  function Take(d: Reader, t: nat, r: Result<Val, Error>): Result<Reader, Error>
    requires HasNext(d)
  {
    match r
    case Ok(v) => Ok(d.(at := Taken(d.at), env := d.env[t := Value(v)]))
    case Err(x) => Err(x)
  }

  function Run(c: Code, d: Reader): Result<Reader, Error>
    decreases c, 0
  {
    match c
    case Nop => Ok(d)
    case Then(a, b) =>
      (match Run(a, d)
       case Ok(d') => Run(b, d')
       case Err(x) => Err(x))
    case Read(t, k) => if HasNext(d) then Take(d, t, DecBasic(k, NextItem(d))) else Err(ErrDecode)
    case ReadBigInt(t) => if HasNext(d) then Take(d, t, Dec(BigIntOp(true), NextItem(d))) else Err(ErrDecode)
    case Convert(t, e) => SetTo(d, t, Eval(e, d.env))
    case Declare(t, zero) => SetTo(d, t, Some(zero))
    case ReadBytes(t) =>
      if !HasNext(d) then Err(ErrDecode)
      else (match Eval(Tmp(t), d.env)
            case Some(VArray(s)) => Take(d, t, Dec(ByteArrayOp(|s|), NextItem(d)))
            case _ => Err(Panic))
    case EnterList =>
      if HasNext(d) && NextItem(d).List? then Ok(Entered(d)) else Err(ErrDecode)
    case LeaveList =>
      if d.outer == [] then Err(Panic)
      else if More(d.at) then Err(ErrDecode)
      else Ok(Reader(d.env, d.outer[..|d.outer| - 1], Cursor(d.outer[|d.outer| - 1], false)))
    case Assign(t, i, e) =>
      (match (Eval(Tmp(t), d.env), Eval(e, d.env))
       case (Some(VStruct(vs)), Some(v)) => if i < |vs| then SetTo(d, t, Some(VStruct(vs[i := v]))) else Err(Panic)
       case _ => Err(Panic))
    case Set(t, e) => SetTo(d, t, Eval(e, d.env))
    case Append(t, e) =>
      (match (Eval(Tmp(t), d.env), Eval(e, d.env))
       case (Some(VSlice(_, vs)), Some(v)) => SetTo(d, t, Some(VSlice(false, vs + [v])))
       case _ => Err(Panic))
    case IfMore(body) => if More(d.at) then Run(body, d) else Ok(d)
    case WhileMore(body) => RunWhile(body, d)
    case AskKind(kt, st) => if HasNext(d) then Ok(Asked(d, kt, st)) else Err(ErrDecode)
    case IfValue(kt, st, want, body) =>
      if kt in d.env && st in d.env && d.env[kt].KindOf? && d.env[st].SizeOf? then
        if d.env[st].size != 0 || d.env[kt].kind != WantKind(want) then Run(body, d) else Ok(d)
      else Err(Panic)
  }

  function Entered(d: Reader): Reader
    requires HasNext(d) && NextItem(d).List?
  {
    Reader(d.env, d.outer + [d.at.items[1..]], Cursor(NextItem(d).items, false))
  }

  /** dec.Kind(): the header of the next item is taken out of the list and held. */
  function Asked(d: Reader, kt: nat, st: nat): Reader
    requires HasNext(d)
  {
    d.(at := Cursor(d.at.items, true),
       env := d.env[kt := KindOf(ItemKind(NextItem(d)))][st := SizeOf(ItemSize(NextItem(d)))])
  }

  function SetTo(d: Reader, t: nat, v: Option<Val>): Result<Reader, Error> {
    match v
    case Some(x) => Ok(d.(env := d.env[t := Value(x)]))
    case None => Err(Panic)
  }

  function Unread(c: Cursor): nat {
    2 * |c.items| + if c.held then 0 else 1
  }

  /** A body that took nothing would loop for ever; that is a Panic here. */
  function RunWhile(body: Code, d: Reader): Result<Reader, Error>
    decreases body, Unread(d.at) + 1
  {
    if !More(d.at) then Ok(d)
    else match Run(body, d)
      case Ok(d') => if Unread(d'.at) < Unread(d.at) then RunWhile(body, d') else Err(Panic)
      case Err(x) => Err(x)
  }

  lemma RunThen(a: Code, b: Code, d: Reader)
    ensures Run(Then(a, b), d) ==
            match Run(a, d)
            case Ok(d') => Run(b, d')
            case Err(x) => Err(x)
  {
  }

  // ---------- the generated code reads as the operation does ----------

  ghost predicate Same(env: Env, env': Env, k: nat) {
    forall t: nat :: t < k ==> (t in env <==> t in env') && (t in env ==> env[t] == env'[t])
  }

  /** The run ended at c with v as the value of e, leaving the temporaries below k, or failed likewise. */
  ghost predicate TookAs(d: Reader, r: Result<Reader, Error>, e: Expr, v: Result<Val, Error>, c: Cursor, k: nat) {
    match v
    case Ok(x) =>
      && r.Ok? && r.value.outer == d.outer && r.value.at == c
      && Same(d.env, r.value.env, k) && Eval(e, r.value.env) == Some(x)
    case Err(x) => r == Err(x)
  }

  /** The field indices are places of the struct, in this operation and inside it. */
  predicate Placed(op: Op)
    decreases op, 0
  {
    match op
    case PtrOp(e, _, _) => Placed(e)
    case StructOp(z, fs, os) => FieldsPlaced(fs, |z|) && FieldsPlaced(os, |z|)
    case SliceOp(e) => Placed(e) && !MayKeep(e)
    case _ => true
  }

  predicate FieldsPlaced(fs: Fields, n: nat)
    decreases fs, 0
  {
    fs == NoFields || (fs.index < n && Placed(fs.op) && FieldsPlaced(fs.rest, n))
  }

  lemma {:induction false} CounterGrows(op: Op, k: nat)
    ensures GenDecode(op, k).2 >= k
    decreases op, 0
  {
    match op {
      case PtrOp(elem, _, _) => CounterGrows(elem, k);
      case StructOp(_, fs, os) =>
        FieldsCounterGrows(fs, k, k + 1);
        OptionalCounterGrows(os, k, GenDecFields(fs, k, k + 1).1);
      case SliceOp(elem) => CounterGrows(elem, k + 1);
      case _ =>
    }
  }

  lemma {:induction false} FieldsCounterGrows(fs: Fields, s: nat, k: nat)
    ensures GenDecFields(fs, s, k).1 >= k
    decreases fs, 0
  {
    if fs != NoFields {
      CounterGrows(fs.op, k);
      FieldsCounterGrows(fs.rest, s, GenDecode(fs.op, k).2);
    }
  }

  lemma {:induction false} OptionalCounterGrows(fs: Fields, s: nat, k: nat)
    ensures GenDecOptional(fs, s, k).1 >= k
    decreases fs, 0
  {
    if fs != NoFields {
      CounterGrows(fs.op, k);
      OptionalCounterGrows(fs.rest, s, GenDecode(fs.op, k).2);
    }
  }

  /** Reading with nothing left fails. */
  lemma {:induction false} EndOfList(op: Op, k: nat, d: Reader)
    requires !HasNext(d)
    ensures Run(GenDecode(op, k).1, d) == Err(ErrDecode)
    decreases op
  {
    match op {
      case PtrOp(elem, nilOK, want) =>
        if nilOK {
          var (result, code, k') := GenDecode(elem, k);
          var body := Then(code, Set(k', Ref(result)));
          RunThen(Declare(k', VNil), NilCheck(k', want, body), d);
          RunThen(AskKind(k' + 1, k' + 2), IfValue(k' + 1, k' + 2, want, body), d.(env := d.env[k' := Value(VNil)]));
        } else {
          EndOfList(elem, k, d);
        }
      case StructOp(z, fs, os) =>
        var (required, k') := GenDecFields(fs, k, k + 1);
        var more := GenDecOptional(os, k, k').0;
        var d1 := d.(env := d.env[k := Value(VStruct(z))]);
        RunThen(Declare(k, VStruct(z)), Then(EnterList, Then(required, Then(more, LeaveList))), d);
        RunThen(EnterList, Then(required, Then(more, LeaveList)), d1);
      case SliceOp(elem) =>
        var (result, code, _) := GenDecode(elem, k + 1);
        var loop := Then(WhileMore(Then(code, Append(k, result))), LeaveList);
        var d1 := d.(env := d.env[k := Value(VSlice(true, []))]);
        RunThen(Declare(k, VSlice(true, [])), Then(EnterList, loop), d);
        RunThen(EnterList, loop, d1);
      case _ =>
    }
  }

  /** Running the code of an operation takes the next item as Dec reads it, and leaves the list where After says. */
  lemma {:induction false} DecodeRuns(op: Op, k: nat, d: Reader)
    requires Placed(op) && HasNext(d)
    ensures var (e, code, _) := GenDecode(op, k); TookAs(d, Run(code, d), e, Dec(op, NextItem(d)), After(op, d.at), k)
    decreases op, 2
  {
    hide TookAs;
    match op {
      case BasicOp(_, _) => LeafDecodes(op, k, d);
      case ByteArrayOp(_) => ArrayDecodes(op, k, d);
      case BigIntOp(_) => LeafDecodes(op, k, d);
      case PtrOp(_, nilOK, _) =>
        if nilOK {
          NilPtrDecodes(op, k, d);
        } else {
          PtrDecodes(op, k, d);
        }
      case StructOp(_, _, _) => StructDecodes(op, k, d);
      case SliceOp(_) => SliceDecodes(op, k, d);
    }
  }

  lemma LeafDecodes(op: Op, k: nat, d: Reader)
    requires HasNext(d) && (op.BasicOp? || op.BigIntOp?)
    ensures var (e, code, _) := GenDecode(op, k); TookAs(d, Run(code, d), e, Dec(op, NextItem(d)), After(op, d.at), k)
  {
  }

  lemma ArrayDecodes(op: Op, k: nat, d: Reader)
    requires HasNext(d) && op.ByteArrayOp?
    ensures var (e, code, _) := GenDecode(op, k); TookAs(d, Run(code, d), e, Dec(op, NextItem(d)), After(op, d.at), k)
  {
  }

  lemma {:induction false} PtrDecodes(op: Op, k: nat, d: Reader)
    requires op.PtrOp? && !op.nilOK && Placed(op) && HasNext(d)
    ensures var (e, code, _) := GenDecode(op, k); TookAs(d, Run(code, d), e, Dec(op, NextItem(d)), After(op, d.at), k)
    decreases op, 0
  {
    DecodeRuns(op.elem, k, d);
  }

  /** size == 0 and the wanted kind together mean the marker. */
  lemma MarkerIff(item: Item, want: NilKind)
    ensures ItemSize(item) != 0 || ItemKind(item) != WantKind(want) <==> item != Marker(want)
  {
  }

  lemma {:induction false} NilPtrDecodes(op: Op, k: nat, d: Reader)
    requires op.PtrOp? && op.nilOK && Placed(op) && HasNext(d)
    ensures var (e, code, _) := GenDecode(op, k); TookAs(d, Run(code, d), e, Dec(op, NextItem(d)), After(op, d.at), k)
    decreases op, 0
  {
    var item, want := NextItem(d), op.nilValue;
    var (result, code, k') := GenDecode(op.elem, k);
    var body := Then(code, Set(k', Ref(result)));
    CounterGrows(op.elem, k);
    MarkerIff(item, want);
    var d1 := d.(env := d.env[k' := Value(VNil)]);
    var d2 := Asked(d1, k' + 1, k' + 2);
    RunThen(Declare(k', VNil), NilCheck(k', want, body), d);
    assert Run(Declare(k', VNil), d) == Ok(d1);
    NilCheckRuns(k', want, body, d1);
    hide Run, ItemKind, ItemSize, WantKind;
    if item != Marker(want) {
      DecodeRuns(op.elem, k, d2);
      RunThen(code, Set(k', Ref(result)), d2);
      PtrSet(d, d2, Run(code, d2), result, Dec(op.elem, item), After(op, d.at), k, k');
    }
  }

  lemma NilCheckRuns(t: nat, want: NilKind, body: Code, d: Reader)
    requires HasNext(d)
    ensures var item, d' := NextItem(d), Asked(d, t + 1, t + 2);
            Run(NilCheck(t, want, body), d)
            == if ItemSize(item) != 0 || ItemKind(item) != WantKind(want) then Run(body, d') else Ok(d')
  {
    RunThen(AskKind(t + 1, t + 2), IfValue(t + 1, t + 2, want, body), d);
  }

  /** The element was read after some settings of later temporaries; now the pointer is set. */
  lemma PtrSet(d: Reader, d2: Reader, r: Result<Reader, Error>, result: Expr, v: Result<Val, Error>, c: Cursor,
               k: nat, k': nat)
    requires TookAs(d2, r, result, v, c, k) && d2.outer == d.outer && Same(d.env, d2.env, k) && k <= k'
    ensures r.Err? ==> v == Err(r.error)
    ensures r.Ok? ==> v.Ok? && TookAs(d, Run(Set(k', Ref(result)), r.value), Tmp(k'), Ok(VPtr(v.value)), c, k)
  {
  }

  // ---------- structs ----------

  /** The run ended at the place v has, with the struct v in temporary s. */
  ghost predicate Filled(d: Reader, r: Result<Reader, Error>, s: nat, v: Result<(seq<Val>, Cursor), Error>) {
    match v
    case Ok((vs, c)) =>
      && r.Ok? && r.value.outer == d.outer && r.value.at == c
      && Same(d.env, r.value.env, s) && Eval(Tmp(s), r.value.env) == Some(VStruct(vs))
    case Err(x) => r == Err(x)
  }

  lemma FilledOk(d: Reader, r: Result<Reader, Error>, s: nat, v: Result<(seq<Val>, Cursor), Error>)
    requires Filled(d, r, s, v)
    ensures r.Ok? <==> v.Ok?
    ensures r.Err? ==> r.error == v.error
    ensures r.Ok? ==> r.value.at == v.value.1 && Eval(Tmp(s), r.value.env) == Some(VStruct(v.value.0))
  {
  }

  /** Decoding a field and assigning it. */
  lemma {:induction false} FieldDecodes(op: Op, i: nat, s: nat, k: nat, d: Reader, vs: seq<Val>, more: Code)
    requires Placed(op) && HasNext(d) && s < k && i < |vs| && Eval(Tmp(s), d.env) == Some(VStruct(vs))
    ensures var (e, code, _) := GenDecode(op, k);
            var r := Run(Then(code, Then(Assign(s, i, e), more)), d);
            match Dec(op, NextItem(d))
            case Err(x) => r == Err(x)
            case Ok(v) => exists d1: Reader ::
              && d1.outer == d.outer && d1.at == After(op, d.at) && Same(d.env, d1.env, s)
              && Eval(Tmp(s), d1.env) == Some(VStruct(vs[i := v])) && r == Run(more, d1)
    decreases op, 3
  {
    var (e, code, _) := GenDecode(op, k);
    DecodeRuns(op, k, d);
    RunThen(code, Then(Assign(s, i, e), more), d);
    if Dec(op, NextItem(d)).Ok? {
      var v, d1 := Dec(op, NextItem(d)).value, Run(code, d).value;
      RunThen(Assign(s, i, e), more, d1);
      AssignRuns(s, i, e, d1, vs, v);
      var d2 := d1.(env := d1.env[s := Value(VStruct(vs[i := v]))]);
      hide Run, Dec, GenDecode;
      assert d2.outer == d.outer && d2.at == After(op, d.at) && Same(d.env, d2.env, s);
    }
  }

  lemma AssignRuns(s: nat, i: nat, e: Expr, d: Reader, vs: seq<Val>, v: Val)
    requires i < |vs| && Eval(Tmp(s), d.env) == Some(VStruct(vs)) && Eval(e, d.env) == Some(v)
    ensures Run(Assign(s, i, e), d) == Ok(d.(env := d.env[s := Value(VStruct(vs[i := v]))]))
  {
  }

  lemma NopRuns(d: Reader)
    ensures Run(Nop, d) == Ok(d)
  {
  }

  lemma {:induction false} DecFieldsRun(fs: Fields, s: nat, k: nat, d: Reader, vs: seq<Val>)
    requires FieldsPlaced(fs, |vs|) && s < k && Eval(Tmp(s), d.env) == Some(VStruct(vs))
    ensures Filled(d, Run(GenDecFields(fs, s, k).0, d), s, DecFields(fs, d.at, vs))
    decreases fs, 0
  {
    hide Run, Dec, GenDecode, After, Placed, Eval;
    if fs == NoFields {
      NopRuns(d);
    } else {
      var (e, code, k') := GenDecode(fs.op, k);
      var more := GenDecFields(fs.rest, s, k').0;
      if HasNext(d) {
        CounterGrows(fs.op, k);
        FieldDecodes(fs.op, fs.index, s, k, d, vs, more);
        if Dec(fs.op, NextItem(d)).Ok? {
          var us := vs[fs.index := Dec(fs.op, NextItem(d)).value];
          var d1: Reader :|
            && d1.outer == d.outer && d1.at == After(fs.op, d.at) && Same(d.env, d1.env, s)
            && Eval(Tmp(s), d1.env) == Some(VStruct(us)) && Run(GenDecFields(fs, s, k).0, d) == Run(more, d1);
          DecFieldsRun(fs.rest, s, k', d1, us);
        }
      } else {
        EndOfList(fs.op, k, d);
        RunThen(code, Then(Assign(s, fs.index, e), more), d);
      }
    }
  }

  lemma {:induction false} DecOptionalRuns(fs: Fields, s: nat, k: nat, d: Reader, vs: seq<Val>)
    requires FieldsPlaced(fs, |vs|) && s < k && Eval(Tmp(s), d.env) == Some(VStruct(vs))
    ensures Filled(d, Run(GenDecOptional(fs, s, k).0, d), s, DecOptional(fs, d.at, vs))
    decreases fs, 0
  {
    hide Run, Dec, GenDecode, After, Placed, Eval;
    if fs == NoFields {
      NopRuns(d);
    } else {
      var (e, code, k') := GenDecode(fs.op, k);
      var more := GenDecOptional(fs.rest, s, k').0;
      IfMoreRuns(Then(code, Then(Assign(s, fs.index, e), more)), d);
      if More(d.at) {
        CounterGrows(fs.op, k);
        FieldDecodes(fs.op, fs.index, s, k, d, vs, more);
        if Dec(fs.op, NextItem(d)).Ok? {
          var us := vs[fs.index := Dec(fs.op, NextItem(d)).value];
          var d1: Reader :|
            && d1.outer == d.outer && d1.at == After(fs.op, d.at) && Same(d.env, d1.env, s)
            && Eval(Tmp(s), d1.env) == Some(VStruct(us)) && Run(GenDecOptional(fs, s, k).0, d) == Run(more, d1);
          DecOptionalRuns(fs.rest, s, k', d1, us);
        }
      }
    }
  }

  lemma IfMoreRuns(body: Code, d: Reader)
    ensures Run(IfMore(body), d) == if More(d.at) then Run(body, d) else Ok(d)
  {
  }

  /** The fields of a struct, required and then optional. */
  function DecBoth(op: Op, c: Cursor): Result<(seq<Val>, Cursor), Error>
    requires op.StructOp?
  {
    match DecFields(op.fields, c, op.zero)
    case Err(x) => Err(x)
    case Ok((vs, rest)) => DecOptional(op.optional, rest, vs)
  }

  function RunBoth(a: Code, b: Code, d: Reader): Result<Reader, Error> {
    match Run(a, d)
    case Ok(d') => Run(b, d')
    case Err(x) => Err(x)
  }

  lemma {:induction false} BodyDecodes(op: Op, k: nat, d: Reader)
    requires op.StructOp? && Placed(op) && Eval(Tmp(k), d.env) == Some(VStruct(op.zero))
    ensures var (required, k') := GenDecFields(op.fields, k, k + 1);
            var more := GenDecOptional(op.optional, k, k').0;
            Filled(d, RunBoth(required, more, d), k, DecBoth(op, d.at))
    decreases op, 0
  {
    var c, z := d.at, op.zero;
    var (required, k') := GenDecFields(op.fields, k, k + 1);
    var more := GenDecOptional(op.optional, k, k').0;
    FieldsCounterGrows(op.fields, k, k + 1);
    DecFieldsRun(op.fields, k, k + 1, d, z);
    var r := Run(required, d);
    var v := DecFields(op.fields, c, z);
    hide Run, Eval;
    FilledOk(d, r, k, v);
    if r.Ok? {
      DecFieldsLength(op.fields, c, z);
      DecOptionalRuns(op.optional, k, k', r.value, v.value.0);
      FilledTwice(d, r, Run(more, r.value), k, v, DecOptional(op.optional, v.value.1, v.value.0));
    }
  }

  lemma {:induction false} StructDecodes(op: Op, k: nat, d: Reader)
    requires op.StructOp? && Placed(op) && HasNext(d)
    ensures var (e, code, _) := GenDecode(op, k); TookAs(d, Run(code, d), e, Dec(op, NextItem(d)), After(op, d.at), k)
    decreases op, 1
  {
    hide Filled, TookAs;
    var item, z := NextItem(d), op.zero;
    var (required, k') := GenDecFields(op.fields, k, k + 1);
    var more := GenDecOptional(op.optional, k, k').0;
    var d1 := d.(env := d.env[k := Value(VStruct(z))]);
    RunThen(Declare(k, VStruct(z)), Then(EnterList, Then(required, Then(more, LeaveList))), d);
    RunThen(EnterList, Then(required, Then(more, LeaveList)), d1);
    if item.List? {
      var d2 := Entered(d1);
      RunThen(required, Then(more, LeaveList), d2);
      BodyDecodes(op, k, d2);
      var r := RunBoth(required, more, d2);
      if Run(required, d2).Ok? {
        RunThen(more, LeaveList, Run(required, d2).value);
      }
      assert Run(EnterList, d1) == Ok(d2);
      hide Run;
      LeaveRuns(d, d2, r, k, DecBoth(op, Cursor(item.items, false)));
      if r.Err? {
        DidFail(d, r.error, k);
      }
    } else {
      assert Run(EnterList, d1) == Err(ErrDecode);
      DidFail(d, ErrDecode, k);
    }
  }

  lemma DidFail(d: Reader, x: Error, k: nat)
    requires HasNext(d)
    ensures TookAs(d, Err(x), Tmp(k), Err(x), Taken(d.at), k)
  {
  }

  lemma {:induction false} DecFieldsLength(fs: Fields, c: Cursor, vs: seq<Val>)
    ensures DecFields(fs, c, vs).Ok? ==> |DecFields(fs, c, vs).value.0| == |vs|
    decreases fs
  {
    if fs != NoFields && c.items != [] && Dec(fs.op, c.items[0]).Ok? {
      DecFieldsLength(fs.rest, After(fs.op, c), Put(vs, fs.index, Dec(fs.op, c.items[0]).value));
    }
  }

  lemma FilledTwice(d: Reader, r1: Result<Reader, Error>, r2: Result<Reader, Error>, s: nat,
                    a: Result<(seq<Val>, Cursor), Error>, b: Result<(seq<Val>, Cursor), Error>)
    requires Filled(d, r1, s, a) && r1.Ok? && Filled(r1.value, r2, s, b)
    ensures Filled(d, r2, s, b)
  {
  }

  /** dec.ListEnd() after the fields of a list that was the next item. */
  lemma LeaveRuns(d: Reader, d2: Reader, r: Result<Reader, Error>, k: nat, v: Result<(seq<Val>, Cursor), Error>)
    requires HasNext(d) && NextItem(d).List? && Same(d.env, d2.env, k)
    requires d2.outer == d.outer + [d.at.items[1..]] && Filled(d2, r, k, v)
    ensures r.Err? ==> v == Err(r.error)
    ensures r.Ok? ==> v.Ok? && TookAs(d, Run(LeaveList, r.value), Tmp(k),
                                      if More(v.value.1) then Err(ErrDecode) else Ok(VStruct(v.value.0)), Taken(d.at), k)
  {
  }

  // ---------- slices ----------

  /** Every failure of Dec is the decoding error. */
  lemma {:induction false} DecFails(op: Op, item: Item)
    ensures Dec(op, item).Err? ==> Dec(op, item) == Err(ErrDecode)
    decreases op, 0
  {
    match op {
      case PtrOp(e, _, _) => DecFails(e, item);
      case StructOp(z, fs, os) =>
        if item.List? {
          var back := DecFields(fs, Cursor(item.items, false), z);
          FieldsFail(fs, Cursor(item.items, false), z);
          if back.Ok? {
            OptionalFails(os, back.value.1, back.value.0);
          }
        }
      case SliceOp(e) =>
        if item.List? {
          AllFail(e, item.items);
        }
      case _ =>
    }
  }

  lemma {:induction false} FieldsFail(fs: Fields, c: Cursor, vs: seq<Val>)
    ensures DecFields(fs, c, vs).Err? ==> DecFields(fs, c, vs) == Err(ErrDecode)
    decreases fs, 0
  {
    if fs != NoFields && c.items != [] {
      DecFails(fs.op, c.items[0]);
      if Dec(fs.op, c.items[0]).Ok? {
        FieldsFail(fs.rest, After(fs.op, c), Put(vs, fs.index, Dec(fs.op, c.items[0]).value));
      }
    }
  }

  lemma {:induction false} OptionalFails(fs: Fields, c: Cursor, vs: seq<Val>)
    ensures DecOptional(fs, c, vs).Err? ==> DecOptional(fs, c, vs) == Err(ErrDecode)
    decreases fs, 0
  {
    if fs != NoFields && More(c) {
      DecFails(fs.op, c.items[0]);
      if Dec(fs.op, c.items[0]).Ok? {
        OptionalFails(fs.rest, After(fs.op, c), Put(vs, fs.index, Dec(fs.op, c.items[0]).value));
      }
    }
  }

  lemma {:induction false} AllFail(op: Op, items: seq<Item>)
    ensures DecAll(op, items).Err? ==> DecAll(op, items) == Err(ErrDecode)
    decreases op, |items| + 1
  {
    if items != [] {
      AllFail(op, items[..|items| - 1]);
      DecFails(op, items[|items| - 1]);
    }
  }

  /** DecAll from the front, as the loop reads. */
  lemma {:induction false} DecAllFront(op: Op, items: seq<Item>)
    requires items != []
    ensures DecAll(op, items) ==
            if Dec(op, items[0]).Ok? && DecAll(op, items[1..]).Ok?
            then Ok([Dec(op, items[0]).value] + DecAll(op, items[1..]).value) else Err(ErrDecode)
    decreases |items|
  {
    AllFail(op, items);
    var n := |items| - 1;
    DecFails(op, items[n]);
    if n == 0 {
      assert items[..0] == [] && items[1..] == [];
      assert DecAll(op, items[..0]) == Ok([]) && DecAll(op, items[1..]) == Ok([]);
      if Dec(op, items[0]).Ok? {
        assert [] + [Dec(op, items[0]).value] == [Dec(op, items[0]).value] + [];
      }
    } else {
      DecAllFront(op, items[..n]);
      var rest := items[1..];
      assert items[..n][1..] == rest[..n - 1] && rest[n - 1] == items[n] && items[..n][0] == items[0];
      AllFail(op, rest);
      if Dec(op, items[0]).Ok? && DecAll(op, rest[..n - 1]).Ok? && Dec(op, items[n]).Ok? {
        var h, m, l := Dec(op, items[0]).value, DecAll(op, rest[..n - 1]).value, Dec(op, items[n]).value;
        assert ([h] + m) + [l] == [h] + (m + [l]);
      }
    }
  }

  ghost predicate Collected(d: Reader, r: Result<Reader, Error>, k: nat, acc: seq<Val>, v: Result<seq<Val>, Error>) {
    match v
    case Ok(vs) =>
      && r.Ok? && r.value.outer == d.outer && r.value.at == Cursor([], false) && Same(d.env, r.value.env, k)
      && Eval(Tmp(k), r.value.env) == Some(VSlice(acc + vs == [], acc + vs))
    case Err(x) => r == Err(x)
  }

  lemma {:induction false} KeepsMeansMay(op: Op, item: Item)
    ensures Keeps(op, item) ==> MayKeep(op)
    decreases op
  {
    if op.PtrOp? && !op.nilOK {
      KeepsMeansMay(op.elem, item);
    }
  }

  /** One element read and appended. */
  lemma {:induction false} ElementDecodes(op: Op, k: nat, d: Reader, acc: seq<Val>)
    requires Placed(op) && !MayKeep(op) && HasNext(d) && Eval(Tmp(k), d.env) == Some(VSlice(acc == [], acc))
    ensures var (e, code, _) := GenDecode(op, k + 1);
            var r := Run(Then(code, Append(k, e)), d);
            match Dec(op, NextItem(d))
            case Err(x) => r == Err(x)
            case Ok(v) =>
              r.Ok? && r.value.outer == d.outer && r.value.at == Taken(d.at) && Same(d.env, r.value.env, k)
              && Eval(Tmp(k), r.value.env) == Some(VSlice(false, acc + [v]))
    decreases op, 3
  {
    hide Run, Dec, GenDecode, Placed;
    var (e, code, _) := GenDecode(op, k + 1);
    DecodeRuns(op, k + 1, d);
    KeepsMeansMay(op, NextItem(d));
    RunThen(code, Append(k, e), d);
    if Dec(op, NextItem(d)).Ok? {
      AppendRuns(k, e, Run(code, d).value, acc, Dec(op, NextItem(d)).value);
    }
  }

  lemma AppendRuns(k: nat, e: Expr, d: Reader, acc: seq<Val>, v: Val)
    requires Eval(Tmp(k), d.env) == Some(VSlice(acc == [], acc)) && Eval(e, d.env) == Some(v)
    ensures Run(Append(k, e), d) == Ok(d.(env := d.env[k := Value(VSlice(false, acc + [v]))]))
  {
  }

  lemma RunWhileStep(body: Code, d: Reader)
    ensures !More(d.at) ==> RunWhile(body, d) == Ok(d)
    ensures More(d.at) && Run(body, d).Err? ==> RunWhile(body, d) == Run(body, d)
    ensures More(d.at) && Run(body, d).Ok? && Run(body, d).value.at == Taken(d.at) ==>
              RunWhile(body, d) == RunWhile(body, Run(body, d).value)
  {
  }

  lemma {:induction false} LoopDecodes(op: Op, k: nat, d: Reader, acc: seq<Val>)
    requires Placed(op) && !MayKeep(op) && !d.at.held && Eval(Tmp(k), d.env) == Some(VSlice(acc == [], acc))
    ensures var (e, code, _) := GenDecode(op, k + 1);
            Collected(d, RunWhile(Then(code, Append(k, e)), d), k, acc, DecAll(op, d.at.items))
    decreases op, 4, |d.at.items|
  {
    hide Run, RunWhile, Dec, GenDecode;
    var (e, code, _) := GenDecode(op, k + 1);
    var body, items := Then(code, Append(k, e)), d.at.items;
    RunWhileStep(body, d);
    if HasNext(d) {
      ElementDecodes(op, k, d, acc);
      DecFails(op, items[0]);
      DecAllFront(op, items);
      AllFail(op, items[1..]);
      hide DecAll;
      if Dec(op, items[0]).Ok? {
        var v, d1 := Dec(op, items[0]).value, Run(body, d).value;
        LoopDecodes(op, k, d1, acc + [v]);
        if DecAll(op, items[1..]).Ok? {
          var vs := DecAll(op, items[1..]).value;
          assert acc + [v] + vs == acc + ([v] + vs);
        }
      }
    } else {
      assert acc + [] == acc;
    }
  }

  lemma {:induction false} SliceDecodes(op: Op, k: nat, d: Reader)
    requires op.SliceOp? && Placed(op) && HasNext(d)
    ensures var (e, code, _) := GenDecode(op, k); TookAs(d, Run(code, d), e, Dec(op, NextItem(d)), After(op, d.at), k)
    decreases op, 0
  {
    var item := NextItem(d);
    var (e, code, _) := GenDecode(op.elem, k + 1);
    var body := Then(code, Append(k, e));
    var d1 := d.(env := d.env[k := Value(VSlice(true, []))]);
    RunThen(Declare(k, VSlice(true, [])), Then(EnterList, Then(WhileMore(body), LeaveList)), d);
    RunThen(EnterList, Then(WhileMore(body), LeaveList), d1);
    if item.List? {
      var d2 := Entered(d1);
      RunThen(WhileMore(body), LeaveList, d2);
      LoopDecodes(op.elem, k, d2, []);
      LeaveSlice(d, d2, RunWhile(body, d2), k, DecAll(op.elem, item.items));
    }
  }

  lemma LeaveSlice(d: Reader, d2: Reader, r: Result<Reader, Error>, k: nat, v: Result<seq<Val>, Error>)
    requires HasNext(d) && NextItem(d).List? && Same(d.env, d2.env, k)
    requires d2.outer == d.outer + [d.at.items[1..]] && Collected(d2, r, k, [], v)
    ensures r.Err? ==> v == Err(r.error)
    ensures r.Ok? ==> v.Ok? && TookAs(d, Run(LeaveList, r.value), Tmp(k), Ok(VSlice(v.value == [], v.value)), Taken(d.at), k)
  {
    if r.Ok? {
      assert [] + v.value == v.value;
    }
  }
}
