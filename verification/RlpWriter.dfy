/**
 The encoder half of rlp/rlpgen/gen.go: genWrite as a compiler from operation trees to statements
 over an encoder buffer, with temporaries numbered by the context's counter; what the statements
 do; and that running the generated code writes the item of the operation tree.
 */
module RlpWriter {
  import opened Wrappers
  import opened Bytes
  import opened RlpOps

  // ---------- the generated language ----------

  /** obj, a temporary, e.field, *e and &e. */
  datatype Expr = Obj | Tmp(t: nat) | Sel(e: Expr, i: nat) | Star(e: Expr) | Ref(e: Expr)

  datatype Code =
    | Nop
    | Then(first: Code, rest: Code)
    | WriteBasic(k: Basic, e: Expr)               // w.WriteBool(e), w.WriteUint64(e), ...
    | WriteArray(e: Expr)                         // w.WriteBytes(e[:])
    | WriteBigInt(e: Expr)                        // w.WriteBigInt(e)
    | WriteMarker(nil: NilKind)                   // w.Write of the marker's byte
    | FailIfNegative(e: Expr)                     // if e.Sign() == -1 { return rlp.ErrNegativeBigInt }
    | IfNil(e: Expr, isNil: Code, otherwise: Code)
    | OpenList(t: nat)                            // t := w.List()
    | CloseList(t: nat)                           // w.ListEnd(t)
    | Range(t: nat, e: Expr, body: Code)          // for _, t := range e { body }
    | SetNonZero(t: nat, e: Expr, zero: Val)      // t := the non-zero check of e
    | IfAny(ts: seq<nat>, body: Code)             // if t || ... { body }

  // ---------- genWrite ----------

  function GenWrite(op: Op, e: Expr, k: nat): (Code, nat)
    decreases op, 0
  {
    match op
    case BasicOp(b, _) => (WriteBasic(b, e), k)
    case ByteArrayOp(_) => (WriteArray(e), k)
    case BigIntOp(pointer) =>
      var code := Then(FailIfNegative(e), WriteBigInt(if pointer then e else Ref(e)));
      (if pointer then IfNil(e, WriteMarker(NilString), code) else code, k)
    case PtrOp(elem, _, nilValue) =>
      var (code, k') := GenWrite(elem, if elem.StructOp? || elem.ByteArrayOp? then e else Star(e), k);
      (IfNil(e, WriteMarker(nilValue), code), k')
    case StructOp(_, fields, optional) =>
      var (required, k') := GenFields(fields, e, k + 1);
      var (more, k'') := GenOptional(optional, e, k');
      (Then(OpenList(k), Then(required, Then(more, CloseList(k)))), k'')
    case SliceOp(elem) =>
      var (code, k') := GenWrite(elem, Tmp(k + 1), k + 2);
      (Then(OpenList(k), Then(Range(k + 1, e, code), CloseList(k))), k')
  }

  function GenFields(fs: Fields, e: Expr, k: nat): (Code, nat)
    decreases fs, 0
  {
    match fs
    case NoFields => (Nop, k)
    case Field(i, _, op, rest) =>
      var (code, k') := GenWrite(op, Sel(e, i), k);
      var (more, k'') := GenFields(rest, e, k');
      (Then(code, more), k'')
  }

  /** writeOptionalFields: first all the checks, then the fields, each under the checks from its own on. */
  function GenOptional(fs: Fields, e: Expr, k: nat): (Code, nat)
    decreases fs, 1
  {
    var (checks, z) := GenChecks(fs, e, k);
    var (fields, k') := GenOptionalFields(fs, e, k, z);
    (Then(checks, fields), k')
  }

  function GenChecks(fs: Fields, e: Expr, k: nat): (Code, nat) {
    match fs
    case NoFields => (Nop, k)
    case Field(i, zero, _, rest) =>
      var (more, k') := GenChecks(rest, e, k + 1);
      (Then(SetNonZero(k, Sel(e, i), zero), more), k')
  }

  /** The checks' temporaries are z, z + 1 and so on. */
  function GenOptionalFields(fs: Fields, e: Expr, z: nat, k: nat): (Code, nat)
    decreases fs, 0
  {
    match fs
    case NoFields => (Nop, k)
    case Field(i, _, op, rest) =>
      var (code, k') := GenWrite(op, Sel(e, i), k);
      var (more, k'') := GenOptionalFields(rest, e, z + 1, k');
      (Then(IfAny(Temps(z, Length(fs)), code), more), k'')
  }

  function Temps(z: nat, n: nat): (r: seq<nat>)
    ensures |r| == n
    decreases n
  {
    if n == 0 then [] else [z] + Temps(z + 1, n - 1)
  }

  // ---------- running the code ----------

  datatype Cell = Value(v: Val) | ListMarker(depth: nat) | Flag(b: bool)

  type Env = map<nat, Cell>

  /** The temporaries, and the buffer: the items of each list still open, outermost first. */
  datatype Writer = Writer(env: Env, stack: seq<seq<Item>>)

  /** None when the expression panics. A selector looks through a pointer. */
  function Eval(e: Expr, obj: Val, env: Env): Option<Val> {
    match e
    case Obj => Some(obj)
    case Tmp(t) => if t in env && env[t].Value? then Some(env[t].v) else None
    case Sel(e', i) =>
      (match Eval(e', obj, env)
       case Some(VStruct(vs)) => if i < |vs| then Some(vs[i]) else None
       case Some(VPtr(VStruct(vs))) => if i < |vs| then Some(vs[i]) else None
       case _ => None)
    case Star(e') =>
      (match Eval(e', obj, env)
       case Some(VPtr(v)) => Some(v)
       case _ => None)
    case Ref(e') =>
      match Eval(e', obj, env)
      case Some(v) => Some(VPtr(v))
      case None => None
  }

  function Emit(w: Writer, item: Item): Result<Writer, Error> {
    if w.stack == [] then Err(Panic) else Ok(w.(stack := Pushed(w.stack, [item])))
  }

  /** The innermost open list with items added. */
  function Pushed(stack: seq<seq<Item>>, items: seq<Item>): seq<seq<Item>>
    requires stack != []
  {
    stack[|stack| - 1 := stack[|stack| - 1] + items]
  }

  function Run(c: Code, obj: Val, w: Writer): Result<Writer, Error>
    decreases c, 0
  {
    match c
    case Nop => Ok(w)
    case Then(a, b) =>
      (match Run(a, obj, w)
       case Ok(w') => Run(b, obj, w')
       case Err(x) => Err(x))
    case WriteBasic(k, e) =>
      (match Eval(e, obj, w.env)
       case Some(v) => if FitsBasic(k, v) then Emit(w, EncBasic(k, v)) else Err(Panic)
       case None => Err(Panic))
    case WriteArray(e) =>
      (match Eval(e, obj, w.env)
       case Some(VArray(s)) => Emit(w, Str(s))
       case Some(VPtr(VArray(s))) => Emit(w, Str(s))
       case _ => Err(Panic))
    case WriteBigInt(e) =>
      (match Eval(e, obj, w.env)
       case Some(VPtr(VBig(i))) => Emit(w, Str(Shortest(if i < 0 then -i else i)))
       case _ => Err(Panic))
    case WriteMarker(k) => Emit(w, Marker(k))
    case FailIfNegative(e) =>
      (match Eval(e, obj, w.env)
       case Some(VBig(i)) => if i < 0 then Err(ErrNegativeBigInt) else Ok(w)
       case Some(VPtr(VBig(i))) => if i < 0 then Err(ErrNegativeBigInt) else Ok(w)
       case _ => Err(Panic))
    case IfNil(e, a, b) =>
      (match Eval(e, obj, w.env)
       case Some(VNil) => Run(a, obj, w)
       case Some(VPtr(_)) => Run(b, obj, w)
       case _ => Err(Panic))
    case OpenList(t) => Ok(Writer(w.env[t := ListMarker(|w.stack|)], w.stack + [[]]))
    case CloseList(t) =>
      if t in w.env && |w.stack| >= 2 && w.env[t] == ListMarker(|w.stack| - 1)
      then Ok(w.(stack := Pushed(w.stack[..|w.stack| - 1], [List(w.stack[|w.stack| - 1])])))
      else Err(Panic)
    case Range(t, e, body) =>
      (match Eval(e, obj, w.env)
       case Some(VSlice(_, vs)) => RunRange(body, t, vs, obj, w)
       case _ => Err(Panic))
    case SetNonZero(t, e, zero) =>
      (match Eval(e, obj, w.env)
       case Some(v) => Ok(w.(env := w.env[t := Flag(NonZero(zero, v))]))
       case None => Err(Panic))
    case IfAny(ts, body) =>
      match AnyFlag(w.env, ts)
      case Some(b) => if b then Run(body, obj, w) else Ok(w)
      case None => Err(Panic)
  }

  function RunRange(body: Code, t: nat, vs: seq<Val>, obj: Val, w: Writer): Result<Writer, Error>
    decreases body, |vs| + 1
  {
    if vs == [] then Ok(w)
    else match RunRange(body, t, vs[..|vs| - 1], obj, w)
      case Ok(w') => Run(body, obj, w'.(env := w'.env[t := Value(vs[|vs| - 1])]))
      case Err(x) => Err(x)
  }

  function AnyFlag(env: Env, ts: seq<nat>): Option<bool> {
    if ts == [] then Some(false)
    else if ts[0] in env && env[ts[0]].Flag? then
      (match AnyFlag(env, ts[1..])
       case Some(b) => Some(env[ts[0]].b || b)
       case None => None)
    else None
  }

  // ---------- temporaries ----------

  predicate Below(e: Expr, k: nat) {
    match e
    case Obj => true
    case Tmp(t) => t < k
    case Sel(e', _) => Below(e', k)
    case Star(e') => Below(e', k)
    case Ref(e') => Below(e', k)
  }

  /** The temporaries below k are as they were. */
  ghost predicate Same(env: Env, env': Env, k: nat) {
    forall t: nat :: t < k ==> (t in env <==> t in env') && (t in env ==> env[t] == env'[t])
  }

  lemma {:induction false} EvalSame(e: Expr, obj: Val, env: Env, env': Env, k: nat)
    requires Below(e, k) && Same(env, env', k)
    ensures Eval(e, obj, env) == Eval(e, obj, env')
  {
    match e {
      case Sel(e', _) => EvalSame(e', obj, env, env', k);
      case Star(e') => EvalSame(e', obj, env, env', k);
      case Ref(e') => EvalSame(e', obj, env, env', k);
      case _ =>
    }
  }

  lemma {:induction false} BelowMore(e: Expr, k: nat, k': nat)
    requires Below(e, k) && k <= k'
    ensures Below(e, k')
  {
    match e {
      case Sel(e', _) => BelowMore(e', k, k');
      case Star(e') => BelowMore(e', k, k');
      case Ref(e') => BelowMore(e', k, k');
      case _ =>
    }
  }

  // ---------- the generated code writes the item ----------

  /** e stands for v, or, where Go looks through pointers, for a pointer to v. */
  predicate Denotes(op: Op, e: Expr, obj: Val, env: Env, v: Val) {
    Eval(e, obj, env) == Some(v) || ((op.StructOp? || op.ByteArrayOp?) && Eval(e, obj, env) == Some(VPtr(v)))
  }

  /** The run added these items and left the temporaries below k alone, or failed in the same way. */
  ghost predicate Wrote(w: Writer, r: Result<Writer, Error>, items: Result<seq<Item>, Error>, k: nat) {
    w.stack != [] &&
    match items
    case Ok(xs) => r.Ok? && r.value.stack == Pushed(w.stack, xs) && Same(w.env, r.value.env, k)
    case Err(x) => r == Err(x)
  }

  function One(r: Result<Item, Error>): Result<seq<Item>, Error> {
    match r
    case Ok(x) => Ok([x])
    case Err(e) => Err(e)
  }

  lemma {:induction false} CounterGrows(op: Op, e: Expr, k: nat)
    ensures GenWrite(op, e, k).1 >= k
    decreases op, 0
  {
    match op {
      case PtrOp(elem, _, _) =>
        CounterGrows(elem, if elem.StructOp? || elem.ByteArrayOp? then e else Star(e), k);
      case StructOp(_, fs, os) =>
        FieldsCounterGrows(fs, e, k + 1);
        OptionalCounterGrows(os, e, GenFields(fs, e, k + 1).1);
      case SliceOp(elem) => CounterGrows(elem, Tmp(k + 1), k + 2);
      case _ =>
    }
  }

  lemma {:induction false} FieldsCounterGrows(fs: Fields, e: Expr, k: nat)
    ensures GenFields(fs, e, k).1 >= k
    decreases fs, 0
  {
    match fs {
      case NoFields =>
      case Field(i, _, op, rest) =>
        CounterGrows(op, Sel(e, i), k);
        FieldsCounterGrows(rest, e, GenWrite(op, Sel(e, i), k).1);
    }
  }

  lemma {:induction false} OptionalCounterGrows(fs: Fields, e: Expr, k: nat)
    ensures GenOptional(fs, e, k).1 >= k
    decreases fs, 1
  {
    ChecksCounter(fs, e, k);
    OptionalFieldsCounterGrows(fs, e, k, k + Length(fs));
  }

  lemma {:induction false} ChecksCounter(fs: Fields, e: Expr, k: nat)
    ensures GenChecks(fs, e, k).1 == k + Length(fs)
  {
    if fs != NoFields {
      ChecksCounter(fs.rest, e, k + 1);
    }
  }

  lemma {:induction false} OptionalFieldsCounterGrows(fs: Fields, e: Expr, z: nat, k: nat)
    ensures GenOptionalFields(fs, e, z, k).1 >= k
    decreases fs, 0
  {
    match fs {
      case NoFields =>
      case Field(i, _, op, rest) =>
        CounterGrows(op, Sel(e, i), k);
        OptionalFieldsCounterGrows(rest, e, z + 1, GenWrite(op, Sel(e, i), k).1);
    }
  }

  /** Running the code of an operation on an expression writes the item of the value it stands for. */
  lemma {:induction false} WriteRuns(op: Op, e: Expr, k: nat, obj: Val, w: Writer, v: Val)
    requires Fits(op, v) && w.stack != [] && Below(e, k) && Denotes(op, e, obj, w.env, v)
    ensures Wrote(w, Run(GenWrite(op, e, k).0, obj, w), One(Enc(op, v)), k)
    decreases op, 1
  {
    hide Wrote;
    match op {
      case BasicOp(_, _) => LeafRuns(op, e, k, obj, w, v);
      case ByteArrayOp(_) => LeafRuns(op, e, k, obj, w, v);
      case BigIntOp(_) => BigIntRuns(op, e, k, obj, w, v);
      case PtrOp(elem, _, _) => PtrRuns(op, e, k, obj, w, v);
      case StructOp(_, _, _) => StructRuns(op, e, k, obj, w, v);
      case SliceOp(_) => SliceRuns(op, e, k, obj, w, v);
    }
  }

  lemma LeafRuns(op: Op, e: Expr, k: nat, obj: Val, w: Writer, v: Val)
    requires Fits(op, v) && w.stack != [] && Denotes(op, e, obj, w.env, v) && (op.BasicOp? || op.ByteArrayOp?)
    ensures Wrote(w, Run(GenWrite(op, e, k).0, obj, w), One(Enc(op, v)), k)
  {
  }

  lemma BigIntRuns(op: Op, e: Expr, k: nat, obj: Val, w: Writer, v: Val)
    requires Fits(op, v) && w.stack != [] && Denotes(op, e, obj, w.env, v) && op.BigIntOp?
    ensures Wrote(w, Run(GenWrite(op, e, k).0, obj, w), One(Enc(op, v)), k)
  {
    hide Wrote, Run;
    if !op.pointer {
      CheckedRuns(e, Ref(e), obj, w, v.i, k);
    } else if v.VPtr? {
      CheckedRuns(e, e, obj, w, v.to.i, k);
      IfNilRuns(e, WriteMarker(NilString), Then(FailIfNegative(e), WriteBigInt(e)), obj, w);
    } else {
      MarkerRuns(NilString, obj, w, k);
      IfNilRuns(e, WriteMarker(NilString), Then(FailIfNegative(e), WriteBigInt(e)), obj, w);
    }
  }

  lemma CheckedRuns(e: Expr, e': Expr, obj: Val, w: Writer, i: int, k: nat)
    requires w.stack != [] && Eval(e', obj, w.env) == Some(VPtr(VBig(i)))
    requires Eval(e, obj, w.env) == Some(VBig(i)) || Eval(e, obj, w.env) == Some(VPtr(VBig(i)))
    ensures Wrote(w, Run(Then(FailIfNegative(e), WriteBigInt(e')), obj, w), One(EncBig(i)), k)
  {
    FailIfNegativeRuns(e, obj, w, i);
    if i >= 0 {
      WriteBigIntRuns(e', obj, w, i, k);
    }
    hide Run, Eval;
    RunThen(FailIfNegative(e), WriteBigInt(e'), obj, w);
  }

  lemma FailIfNegativeRuns(e: Expr, obj: Val, w: Writer, i: int)
    requires Eval(e, obj, w.env) == Some(VBig(i)) || Eval(e, obj, w.env) == Some(VPtr(VBig(i)))
    ensures Run(FailIfNegative(e), obj, w) == if i < 0 then Err(ErrNegativeBigInt) else Ok(w)
  {
  }

  lemma WriteBigIntRuns(e: Expr, obj: Val, w: Writer, i: int, k: nat)
    requires w.stack != [] && Eval(e, obj, w.env) == Some(VPtr(VBig(i))) && i >= 0
    ensures Wrote(w, Run(WriteBigInt(e), obj, w), Ok([Str(Shortest(i))]), k)
  {
  }

  lemma IfNilRuns(e: Expr, a: Code, b: Code, obj: Val, w: Writer)
    ensures Eval(e, obj, w.env) == Some(VNil) ==> Run(IfNil(e, a, b), obj, w) == Run(a, obj, w)
    ensures forall v :: Eval(e, obj, w.env) == Some(VPtr(v)) ==> Run(IfNil(e, a, b), obj, w) == Run(b, obj, w)
  {
  }

  lemma RunThen(a: Code, b: Code, obj: Val, w: Writer)
    ensures Run(Then(a, b), obj, w) ==
            match Run(a, obj, w)
            case Ok(w') => Run(b, obj, w')
            case Err(x) => Err(x)
  {
  }

  lemma {:induction false} PtrRuns(op: Op, e: Expr, k: nat, obj: Val, w: Writer, v: Val)
    requires op.PtrOp? && Fits(op, v) && w.stack != [] && Below(e, k) && Denotes(op, e, obj, w.env, v)
    ensures Wrote(w, Run(GenWrite(op, e, k).0, obj, w), One(Enc(op, v)), k)
    decreases op, 0
  {
    hide Wrote, Run;
    var e' := if op.elem.StructOp? || op.elem.ByteArrayOp? then e else Star(e);
    IfNilRuns(e, WriteMarker(op.nilValue), GenWrite(op.elem, e', k).0, obj, w);
    if v.VPtr? {
      WriteRuns(op.elem, e', k, obj, w, v.to);
    } else {
      MarkerRuns(op.nilValue, obj, w, k);
    }
  }

  lemma MarkerRuns(m: NilKind, obj: Val, w: Writer, k: nat)
    requires w.stack != []
    ensures Wrote(w, Run(WriteMarker(m), obj, w), Ok([Marker(m)]), k)
  {
  }

  lemma {:induction false} SliceRuns(op: Op, e: Expr, k: nat, obj: Val, w: Writer, v: Val)
    requires op.SliceOp? && Fits(op, v) && w.stack != [] && Below(e, k) && Denotes(op, e, obj, w.env, v)
    ensures Wrote(w, Run(GenWrite(op, e, k).0, obj, w), One(Enc(op, v)), k)
    decreases op, 0
  {
    hide Wrote, Run;
    var body := GenWrite(op.elem, Tmp(k + 1), k + 2).0;
    var loop := Range(k + 1, e, body);
    var w1 := Opened(k, obj, w);
    RunThen(OpenList(k), Then(loop, CloseList(k)), obj, w);
    EvalSame(e, obj, w.env, w1.env, k);
    RangeRuns(op.elem, k + 1, obj, w1, v.elems);
    RangeIs(k + 1, e, body, obj, w1, v);
    var r := Run(loop, obj, w1);
    Closes(k, obj, w, w1, r, EncAll(op.elem, v.elems));
    RunThen(loop, CloseList(k), obj, w1);
    if r.Err? {
      Failed(w, r.error, k);
    }
  }

  lemma RangeIs(t: nat, e: Expr, body: Code, obj: Val, w: Writer, v: Val)
    requires v.VSlice? && Eval(e, obj, w.env) == Some(v)
    ensures Run(Range(t, e, body), obj, w) == RunRange(body, t, v.elems, obj, w)
  {
  }

  /** Between List and ListEnd: what was written becomes one list. */
  lemma Closes(t: nat, obj: Val, w: Writer, w1: Writer, r: Result<Writer, Error>, items: Result<seq<Item>, Error>)
    requires w.stack != [] && w1 == Run(OpenList(t), obj, w).value && Wrote(w1, r, items, t + 1)
    ensures r.Ok? <==> items.Ok?
    ensures r.Err? ==> r.error == items.error
    ensures r.Ok? ==> Wrote(w, Run(CloseList(t), obj, r.value), Ok([List(items.value)]), t)
  {
    if r.Ok? {
      assert r.value.stack[..|w.stack|] == w.stack;
      assert [] + items.value == items.value;
    }
  }

  lemma {:induction false} RangeRuns(op: Op, t: nat, obj: Val, w: Writer, vs: seq<Val>)
    requires AllFit(op, vs) && w.stack != []
    ensures Wrote(w, RunRange(GenWrite(op, Tmp(t), t + 1).0, t, vs, obj, w), EncAll(op, vs), t)
    decreases op, |vs| + 2
  {
    if vs == [] {
      PushNothing(w.stack);
    } else {
      hide Wrote, Run, GenWrite;
      var n, body := |vs| - 1, GenWrite(op, Tmp(t), t + 1).0;
      RangeRuns(op, t, obj, w, vs[..n]);
      var r1 := RunRange(body, t, vs[..n], obj, w);
      WroteOk(w, r1, EncAll(op, vs[..n]), t);
      if r1.Ok? {
        var w2 := r1.value.(env := r1.value.env[t := Value(vs[n])]);
        WriteRuns(op, Tmp(t), t + 1, obj, w2, vs[n]);
        WroteAfterSet(r1.value, t, Value(vs[n]), Run(body, obj, w2), One(Enc(op, vs[n])));
        BothWrote(w, r1, Run(body, obj, w2), EncAll(op, vs[..n]), One(Enc(op, vs[n])), t, t);
      } else {
        Failed(w, r1.error, t);
      }
    }
  }

  lemma WroteAfterSet(w: Writer, t: nat, c: Cell, r: Result<Writer, Error>, items: Result<seq<Item>, Error>)
    requires Wrote(w.(env := w.env[t := c]), r, items, t + 1)
    ensures Wrote(w, r, items, t)
  {
  }

  lemma PushNothing(stack: seq<seq<Item>>)
    requires stack != []
    ensures Pushed(stack, []) == stack
  {
    assert stack[|stack| - 1] + [] == stack[|stack| - 1];
  }

  lemma PushTwice(stack: seq<seq<Item>>, a: seq<Item>, b: seq<Item>)
    requires stack != []
    ensures Pushed(Pushed(stack, a), b) == Pushed(stack, a + b)
  {
    assert stack[|stack| - 1] + a + b == stack[|stack| - 1] + (a + b);
  }

  predicate StructAt(e: Expr, obj: Val, env: Env, vs: seq<Val>) {
    Eval(e, obj, env) == Some(VStruct(vs)) || Eval(e, obj, env) == Some(VPtr(VStruct(vs)))
  }

  lemma StructSame(e: Expr, obj: Val, env: Env, env': Env, vs: seq<Val>, k: nat)
    requires StructAt(e, obj, env, vs) && Same(env, env', k) && Below(e, k)
    ensures StructAt(e, obj, env', vs)
  {
    EvalSame(e, obj, env, env', k);
  }

  lemma {:induction false} StructRuns(op: Op, e: Expr, k: nat, obj: Val, w: Writer, v: Val)
    requires op.StructOp? && Fits(op, v) && w.stack != [] && Below(e, k) && Denotes(op, e, obj, w.env, v)
    ensures Wrote(w, Run(GenWrite(op, e, k).0, obj, w), One(Enc(op, v)), k)
    decreases op, 0
  {
    hide Wrote, Run;
    var vs, fs, os := v.fields, op.fields, op.optional;
    var (required, k1) := GenFields(fs, e, k + 1);
    var more := GenOptional(os, e, k1).0;
    FieldsCounterGrows(fs, e, k + 1);
    var w1 := Opened(k, obj, w);
    RunThen(OpenList(k), Then(required, Then(more, CloseList(k))), obj, w);
    RunThen(required, Then(more, CloseList(k)), obj, w1);
    EvalSame(e, obj, w.env, w1.env, k);
    BelowMore(e, k, k + 1);
    FieldsRun(fs, e, k + 1, obj, w1, vs);
    var r1 := Run(required, obj, w1);
    WroteOk(w1, r1, EncFields(fs, vs), k + 1);
    if r1.Ok? {
      RunThen(more, CloseList(k), obj, r1.value);
      EvalSame(e, obj, w1.env, r1.value.env, k + 1);
      BelowMore(e, k, k1);
      OptionalRuns(os, e, k1, obj, r1.value, vs);
      var r2 := Run(more, obj, r1.value);
      BothWrote(w1, r1, r2, EncFields(fs, vs), EncOptional(os, vs), k + 1, k1);
      Closes(k, obj, w, w1, r2, Joined(EncFields(fs, vs), EncOptional(os, vs)));
      if r2.Err? {
        Failed(w, r2.error, k);
      }
    } else {
      Failed(w, r1.error, k);
    }
  }

  lemma Opened(t: nat, obj: Val, w: Writer) returns (w1: Writer)
    ensures Run(OpenList(t), obj, w) == Ok(w1) && w1 == Run(OpenList(t), obj, w).value && w1.stack == w.stack + [[]] && Same(w.env, w1.env, t)
  {
    w1 := Writer(w.env[t := ListMarker(|w.stack|)], w.stack + [[]]);
  }

  function Joined(a: Result<seq<Item>, Error>, b: Result<seq<Item>, Error>): Result<seq<Item>, Error>
  {
    if a.Err? then a else if b.Err? then b else Ok(a.value + b.value)
  }

  /** One piece of code after another. */
  lemma BothWrote(w: Writer, r1: Result<Writer, Error>, r2: Result<Writer, Error>,
                  a: Result<seq<Item>, Error>, b: Result<seq<Item>, Error>, k: nat, k1: nat)
    requires Wrote(w, r1, a, k) && r1.Ok? && Wrote(r1.value, r2, b, k1) && k <= k1
    ensures Wrote(w, r2, Joined(a, b), k)
  {
    if b.Ok? {
      PushTwice(w.stack, a.value, b.value);
    }
  }

  lemma NopRuns(obj: Val, w: Writer, k: nat)
    ensures Run(Nop, obj, w) == Ok(w)
    ensures w.stack != [] ==> Wrote(w, Ok(w), Ok([]), k)
  {
    if w.stack != [] {
      PushNothing(w.stack);
    }
  }

  lemma {:induction false} FieldsRun(fs: Fields, e: Expr, k: nat, obj: Val, w: Writer, vs: seq<Val>)
    requires FieldsFit(fs, vs) && w.stack != [] && Below(e, k) && StructAt(e, obj, w.env, vs)
    ensures Wrote(w, Run(GenFields(fs, e, k).0, obj, w), EncFields(fs, vs), k)
    decreases fs, 0
  {
    hide Wrote, Run, Fits, GenWrite, Enc, Same, Pushed;
    NopRuns(obj, w, k);
    if fs != NoFields {
      var v, field := vs[fs.index], Sel(e, fs.index);
      var (code, k1) := GenWrite(fs.op, field, k);
      var rest := GenFields(fs.rest, e, k1).0;
      CounterGrows(fs.op, field, k);
      WriteRuns(fs.op, field, k, obj, w, v);
      var r1 := Run(code, obj, w);
      RunThen(code, rest, obj, w);
      WroteOk(w, r1, One(Enc(fs.op, v)), k);
      if r1.Err? {
        Failed(w, r1.error, k);
      } else {
        StructSame(e, obj, w.env, r1.value.env, vs, k);
        BelowMore(e, k, k1);
        FieldsRun(fs.rest, e, k1, obj, r1.value, vs);
        BothWrote(w, r1, Run(rest, obj, r1.value), One(Enc(fs.op, v)), EncFields(fs.rest, vs), k, k1);
      }
    }
  }

  /** The checks' temporaries, from z on, hold the non-zero checks of the optional fields. */
  predicate Flags(env: Env, fs: Fields, vs: seq<Val>, z: nat)
    requires FieldsFit(fs, vs)
  {
    fs == NoFields || (z in env && env[z] == Flag(NonZero(fs.zero, vs[fs.index])) && Flags(env, fs.rest, vs, z + 1))
  }

  lemma {:induction false} FlagsSame(env: Env, env': Env, fs: Fields, vs: seq<Val>, z: nat, k: nat)
    requires FieldsFit(fs, vs) && Flags(env, fs, vs, z) && Same(env, env', k) && z + Length(fs) <= k
    ensures Flags(env', fs, vs, z)
    decreases fs
  {
    if fs != NoFields {
      FlagsSame(env, env', fs.rest, vs, z + 1, k);
    }
  }

  lemma {:induction false} FlagsAny(env: Env, fs: Fields, vs: seq<Val>, z: nat)
    requires FieldsFit(fs, vs) && Flags(env, fs, vs, z)
    ensures AnyFlag(env, Temps(z, Length(fs))) == Some(AnyNonZero(fs, vs))
    decreases fs
  {
    if fs != NoFields {
      FlagsAny(env, fs.rest, vs, z + 1);
      assert Temps(z, Length(fs))[1..] == Temps(z + 1, Length(fs.rest));
    }
  }

  lemma CheckRuns(e: Expr, i: nat, zero: Val, k: nat, obj: Val, w: Writer, vs: seq<Val>)
    requires StructAt(e, obj, w.env, vs) && i < |vs|
    ensures Run(SetNonZero(k, Sel(e, i), zero), obj, w) == Ok(w.(env := w.env[k := Flag(NonZero(zero, vs[i]))]))
  {
  }

  lemma {:induction false} ChecksRun(fs: Fields, e: Expr, k: nat, obj: Val, w: Writer, vs: seq<Val>)
    requires FieldsFit(fs, vs) && Below(e, k) && StructAt(e, obj, w.env, vs)
    ensures var r := Run(GenChecks(fs, e, k).0, obj, w);
            r.Ok? && r.value.stack == w.stack && Same(w.env, r.value.env, k) && Flags(r.value.env, fs, vs, k)
    decreases fs
  {
    hide Run, StructAt, Below, Fits, NonZero, AnyNonZero, Pushed;
    NopRuns(obj, w, k);
    if fs != NoFields {
      var check, rest := SetNonZero(k, Sel(e, fs.index), fs.zero), GenChecks(fs.rest, e, k + 1).0;
      var w1 := w.(env := w.env[k := Flag(NonZero(fs.zero, vs[fs.index]))]);
      CheckRuns(e, fs.index, fs.zero, k, obj, w, vs);
      RunThen(check, rest, obj, w);
      StructSame(e, obj, w.env, w1.env, vs, k);
      BelowMore(e, k, k + 1);
      ChecksRun(fs.rest, e, k + 1, obj, w1, vs);
    }
  }

  lemma {:induction false} OptionalRuns(fs: Fields, e: Expr, k: nat, obj: Val, w: Writer, vs: seq<Val>)
    requires FieldsFit(fs, vs) && w.stack != [] && Below(e, k) && StructAt(e, obj, w.env, vs)
    ensures Wrote(w, Run(GenOptional(fs, e, k).0, obj, w), EncOptional(fs, vs), k)
    decreases fs, 2
  {
    hide Run, Wrote, Eval;
    ChecksRun(fs, e, k, obj, w, vs);
    ChecksCounter(fs, e, k);
    var checks, z := GenChecks(fs, e, k).0, k + Length(fs);
    var fields := GenOptionalFields(fs, e, k, z).0;
    var w1 := Run(checks, obj, w).value;
    EvalSame(e, obj, w.env, w1.env, k);
    BelowMore(e, k, z);
    OptionalFieldsRun(fs, e, k, z, obj, w1, vs);
    RunThen(checks, fields, obj, w);
    WroteFrom(w, w1, Run(fields, obj, w1), EncOptional(fs, vs), k, z);
  }

  lemma WroteFrom(w: Writer, w1: Writer, r: Result<Writer, Error>, items: Result<seq<Item>, Error>, k: nat, k1: nat)
    requires Wrote(w1, r, items, k1) && w1.stack == w.stack && Same(w.env, w1.env, k) && k <= k1
    ensures Wrote(w, r, items, k)
  {
  }

  lemma {:induction false} OptionalFieldsRun(fs: Fields, e: Expr, z: nat, k: nat, obj: Val, w: Writer, vs: seq<Val>)
    requires FieldsFit(fs, vs) && w.stack != [] && Below(e, k) && StructAt(e, obj, w.env, vs)
    requires Flags(w.env, fs, vs, z) && z + Length(fs) <= k
    ensures Wrote(w, Run(GenOptionalFields(fs, e, z, k).0, obj, w), EncOptional(fs, vs), k)
    decreases fs, 1
  {
    if fs == NoFields {
      PushNothing(w.stack);
    } else {
      if AnyNonZero(fs, vs) {
        OptionalWritten(fs, e, z, k, obj, w, vs);
      } else {
        OptionalSkipped(fs, e, z, k, obj, w, vs);
      }
    }
  }

  lemma {:induction false} OptionalWritten(fs: Fields, e: Expr, z: nat, k: nat, obj: Val, w: Writer, vs: seq<Val>)
    requires FieldsFit(fs, vs) && w.stack != [] && Below(e, k) && StructAt(e, obj, w.env, vs)
    requires Flags(w.env, fs, vs, z) && z + Length(fs) <= k && AnyNonZero(fs, vs)
    ensures Wrote(w, Run(GenOptionalFields(fs, e, z, k).0, obj, w), EncOptional(fs, vs), k)
    decreases fs, 0
  {
    hide Wrote, Run, Fits, Enc, NonZero, GenWrite;
    var v, field := vs[fs.index], Sel(e, fs.index);
    var (code, k1) := GenWrite(fs.op, field, k);
    var rest := GenOptionalFields(fs.rest, e, z + 1, k1).0;
    CounterGrows(fs.op, field, k);
    FlagsAny(w.env, fs, vs, z);
    RunThen(IfAny(Temps(z, Length(fs)), code), rest, obj, w);
    IfAnyRuns(Temps(z, Length(fs)), code, obj, w);
    WriteRuns(fs.op, field, k, obj, w, v);
    var r1 := Run(code, obj, w);
    WroteOk(w, r1, One(Enc(fs.op, v)), k);
    if r1.Ok? {
      EvalSame(e, obj, w.env, r1.value.env, k);
      BelowMore(e, k, k1);
      FlagsSame(w.env, r1.value.env, fs.rest, vs, z + 1, k);
      OptionalFieldsRun(fs.rest, e, z + 1, k1, obj, r1.value, vs);
      BothWrote(w, r1, Run(rest, obj, r1.value), One(Enc(fs.op, v)), EncOptional(fs.rest, vs), k, k1);
    } else {
      Failed(w, r1.error, k);
    }
  }

  lemma WroteOk(w: Writer, r: Result<Writer, Error>, items: Result<seq<Item>, Error>, k: nat)
    requires Wrote(w, r, items, k)
    ensures r.Ok? <==> items.Ok?
    ensures r.Ok? ==> Same(w.env, r.value.env, k) && r.value.stack != []
    ensures items.Err? ==> r == Err(items.error)
  {
  }

  lemma Failed(w: Writer, x: Error, k: nat)
    requires w.stack != []
    ensures Wrote(w, Err(x), Err(x), k)
  {
  }

  lemma {:induction false} OptionalSkipped(fs: Fields, e: Expr, z: nat, k: nat, obj: Val, w: Writer, vs: seq<Val>)
    requires fs != NoFields && FieldsFit(fs, vs) && w.stack != [] && Below(e, k) && StructAt(e, obj, w.env, vs)
    requires Flags(w.env, fs, vs, z) && z + Length(fs) <= k && !AnyNonZero(fs, vs)
    ensures Wrote(w, Run(GenOptionalFields(fs, e, z, k).0, obj, w), EncOptional(fs, vs), k)
    decreases fs, 0
  {
    hide Wrote, Run;
    var field := Sel(e, fs.index);
    var (code, k1) := GenWrite(fs.op, field, k);
    var rest := GenOptionalFields(fs.rest, e, z + 1, k1).0;
    CounterGrows(fs.op, field, k);
    FlagsAny(w.env, fs, vs, z);
    RunThen(IfAny(Temps(z, Length(fs)), code), rest, obj, w);
    IfAnyRuns(Temps(z, Length(fs)), code, obj, w);
    BelowMore(e, k, k1);
    OptionalFieldsRun(fs.rest, e, z + 1, k1, obj, w, vs);
    WroteFrom(w, w, Run(rest, obj, w), EncOptional(fs.rest, vs), k, k1);
  }

  lemma IfAnyRuns(ts: seq<nat>, code: Code, obj: Val, w: Writer)
    requires AnyFlag(w.env, ts).Some?
    ensures Run(IfAny(ts, code), obj, w) == if AnyFlag(w.env, ts).value then Run(code, obj, w) else Ok(w)
  {
  }

  /** EncodeRLP of a struct: with obj a pointer to v, the buffer ends up with the item of v. */
  lemma EncoderWrites(op: Op, v: Val)
    requires op.StructOp? && Fits(op, v)
    ensures var r := Run(GenWrite(op, Obj, 0).0, VPtr(v), Writer(map[], [[]]));
            match Enc(op, v)
            case Ok(item) => r.Ok? && r.value.stack == [[item]]
            case Err(x) => r == Err(x)
  {
    WriteRuns(op, Obj, 0, VPtr(v), Writer(map[], [[]]), v);
    if Enc(op, v).Ok? {
      assert [] + [Enc(op, v).value] == [Enc(op, v).value];
    }
  }
}
