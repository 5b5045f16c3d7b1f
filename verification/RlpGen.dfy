/**
 The generator of rlp/rlpgen/gen.go as it runs: a genContext whose counter names the temporaries,
 and genWrite and genDecode that draw from it while they append to their buffers. The code they
 produce is that of GenWrite and GenDecode.
 */
module RlpGen {
  import opened RlpOps
  import W = RlpWriter
  import R = RlpReader

  /** A buffer of writer code followed by more. */
  function WBlock(b: seq<W.Code>, c: W.Code): W.Code {
    if b == [] then c else W.Then(b[0], WBlock(b[1..], c))
  }

  lemma {:induction false} WAppend(b: seq<W.Code>, x: W.Code, c: W.Code)
    ensures WBlock(b + [x], c) == WBlock(b, W.Then(x, c))
    decreases |b|
  {
    if b == [] {
      assert [x][1..] == [];
    } else {
      assert (b + [x])[1..] == b[1..] + [x];
      WAppend(b[1..], x, c);
    }
  }

  function RBlock(b: seq<R.Code>, c: R.Code): R.Code {
    if b == [] then c else R.Then(b[0], RBlock(b[1..], c))
  }

  lemma {:induction false} RAppend(b: seq<R.Code>, x: R.Code, c: R.Code)
    ensures RBlock(b + [x], c) == RBlock(b, R.Then(x, c))
    decreases |b|
  {
    if b == [] {
      assert [x][1..] == [];
    } else {
      assert (b + [x])[1..] == b[1..] + [x];
      RAppend(b[1..], x, c);
    }
  }

  /** Opened conditions, closed again after c: the suffix of decodeOptionalFields. */
  function Nested(b: seq<(R.Code, R.Code)>, c: R.Code): R.Code {
    if b == [] then c else R.IfMore(R.Then(b[0].0, R.Then(b[0].1, Nested(b[1..], c))))
  }

  lemma {:induction false} NestedAppend(b: seq<(R.Code, R.Code)>, x: (R.Code, R.Code), c: R.Code)
    ensures Nested(b + [x], c) == Nested(b, R.IfMore(R.Then(x.0, R.Then(x.1, c))))
    decreases |b|
  {
    if b == [] {
      assert [x][1..] == [];
    } else {
      assert (b + [x])[1..] == b[1..] + [x];
      NestedAppend(b[1..], x, c);
    }
  }

  lemma {:induction false} TempsSplit(z: nat, n: nat)
    ensures W.Temps(z, n + 1) == W.Temps(z, n) + [z + n]
    decreases n
  {
    if n > 0 {
      TempsSplit(z + 1, n - 1);
    }
  }

  class GenContext {
    var tempCounter: nat

    method Temp() returns (t: nat)
      modifies this
      ensures t == old(tempCounter) && tempCounter == t + 1
    {
      t := tempCounter;
      tempCounter := tempCounter + 1;
    }

    method ResetTemp()
      modifies this
      ensures tempCounter == 0
    {
      tempCounter := 0;
    }

    // ---------- genWrite ----------

    method GenWrite(op: Op, e: W.Expr) returns (code: W.Code)
      modifies this
      ensures (code, tempCounter) == W.GenWrite(op, e, old(tempCounter))
      decreases op, 1
    {
      match op {
        case BasicOp(k, _) => code := W.WriteBasic(k, e);
        case ByteArrayOp(_) => code := W.WriteArray(e);
        case BigIntOp(pointer) =>
          var dst := e;
          if !pointer {
            dst := W.Ref(e);
          }
          code := W.Then(W.FailIfNegative(e), W.WriteBigInt(dst));
          if pointer {
            code := W.IfNil(e, W.WriteMarker(NilString), code);
          }
        case PtrOp(elem, _, nilValue) =>
          var vv := if elem.StructOp? || elem.ByteArrayOp? then e else W.Star(e);
          var c := GenWrite(elem, vv);
          code := W.IfNil(e, W.WriteMarker(nilValue), c);
        case StructOp(_, fields, optional) =>
          var listMarker := Temp();
          var required := GenFields(fields, e);
          var more := WriteOptionalFields(optional, e);
          code := W.Then(W.OpenList(listMarker), W.Then(required, W.Then(more, W.CloseList(listMarker))));
        case SliceOp(elem) =>
          var listMarker := Temp();
          var iterElemV := Temp();
          var c := GenWrite(elem, W.Tmp(iterElemV));
          code := W.Then(W.OpenList(listMarker), W.Then(W.Range(iterElemV, e, c), W.CloseList(listMarker)));
      }
    }

    /** The loop over op.fields. */
    method GenFields(fields: Fields, e: W.Expr) returns (code: W.Code)
      modifies this
      ensures (code, tempCounter) == W.GenFields(fields, e, old(tempCounter))
      decreases fields, 0
    {
      var b: seq<W.Code>, fs := [], fields;
      while fs != NoFields
        invariant fs == fields || (fields decreases to fs)
        invariant var (rest, k) := W.GenFields(fs, e, tempCounter);
                  W.GenFields(fields, e, old(tempCounter)) == (WBlock(b, rest), k)
        decreases fs
      {
        var c := GenWrite(fs.op, W.Sel(e, fs.index));
        WAppend(b, c, W.GenFields(fs.rest, e, tempCounter).0);
        b, fs := b + [c], fs.rest;
      }
      code := WBlock(b, W.Nop);
    }

    method WriteOptionalFields(optional: Fields, e: W.Expr) returns (code: W.Code)
      modifies this
      ensures (code, tempCounter) == W.GenOptional(optional, e, old(tempCounter))
      decreases optional, 1
    {
      ghost var k := tempCounter;
      var zeroV, checks := GenChecks(optional, e);
      var fields := GenOptionalFields(optional, e, k, zeroV);
      code := W.Then(checks, fields);
    }

    /** First the zero-ness of all optional fields. */
    method GenChecks(optional: Fields, e: W.Expr) returns (zeroV: seq<nat>, code: W.Code)
      modifies this
      ensures (code, tempCounter) == W.GenChecks(optional, e, old(tempCounter))
      ensures zeroV == W.Temps(old(tempCounter), Length(optional))
    {
      ghost var k := tempCounter;
      var b: seq<W.Code>, fs := [], optional;
      zeroV := [];
      while fs != NoFields
        invariant tempCounter == k + |zeroV| && zeroV == W.Temps(k, |zeroV|)
        invariant |zeroV| + Length(fs) == Length(optional)
        invariant var (rest, k') := W.GenChecks(fs, e, tempCounter);
                  W.GenChecks(optional, e, k) == (WBlock(b, rest), k')
        decreases fs
      {
        var t := Temp();
        TempsSplit(k, |zeroV|);
        var c := W.SetNonZero(t, W.Sel(e, fs.index), fs.zero);
        WAppend(b, c, W.GenChecks(fs.rest, e, tempCounter).0);
        zeroV, b, fs := zeroV + [t], b + [c], fs.rest;
      }
      code := WBlock(b, W.Nop);
    }

    /** Then the fields, each if its own check or a later one holds. */
    method GenOptionalFields(optional: Fields, e: W.Expr, ghost z: nat, zeroV: seq<nat>) returns (code: W.Code)
      requires zeroV == W.Temps(z, Length(optional))
      modifies this
      ensures (code, tempCounter) == W.GenOptionalFields(optional, e, z, old(tempCounter))
      decreases optional, 0
    {
      var b: seq<W.Code>, fs, i := [], optional, 0;
      while fs != NoFields
        invariant fs == optional || (optional decreases to fs)
        invariant i + Length(fs) == Length(optional) == |zeroV|
        invariant zeroV[i..] == W.Temps(z + i, Length(fs))
        invariant var (rest, k) := W.GenOptionalFields(fs, e, z + i, tempCounter);
                  W.GenOptionalFields(optional, e, z, old(tempCounter)) == (WBlock(b, rest), k)
        decreases fs
      {
        var cond := zeroV[i..];
        var c := GenWrite(fs.op, W.Sel(e, fs.index));
        WAppend(b, W.IfAny(cond, c), W.GenOptionalFields(fs.rest, e, z + i + 1, tempCounter).0);
        assert zeroV[i + 1..] == cond[1..];
        b, fs, i := b + [W.IfAny(cond, c)], fs.rest, i + 1;
      }
      code := WBlock(b, W.Nop);
    }

    // ---------- genDecode ----------

    method GenDecode(op: Op) returns (result: R.Expr, code: R.Code)
      modifies this
      ensures (result, code, tempCounter) == R.GenDecode(op, old(tempCounter))
      decreases op, 1
    {
      match op {
        case BasicOp(k, conv) =>
          var resultV := Temp();
          result, code := R.Tmp(resultV), R.Read(resultV, k);
          if conv {
            var c := Temp();
            code := R.Then(code, R.Convert(c, result));
            result := R.Tmp(c);
          }
        case ByteArrayOp(n) =>
          var resultV := Temp();
          result, code := R.Tmp(resultV), R.Then(R.Declare(resultV, VArray(seq(n, i => 0))), R.ReadBytes(resultV));
        case BigIntOp(pointer) =>
          var resultV := Temp();
          result, code := R.Tmp(resultV), R.ReadBigInt(resultV);
          if !pointer {
            result := R.Star(result);
          }
        case PtrOp(elem, nilOK, nilValue) =>
          var r, c := GenDecode(elem);
          if !nilOK {
            return R.Ref(r), c;
          }
          var resultV := Temp();
          var kindV := Temp();
          var sizeV := Temp();
          result := R.Tmp(resultV);
          code := R.IfValue(kindV, sizeV, nilValue, R.Then(c, R.Set(resultV, R.Ref(r))));
          code := R.Then(R.Declare(resultV, VNil), R.Then(R.AskKind(kindV, sizeV), code));
        case StructOp(zero, fields, optional) =>
          var resultV := Temp();
          var required := GenDecFields(fields, resultV);
          var more := DecodeOptionalFields(optional, resultV);
          result := R.Tmp(resultV);
          code := R.Then(R.Declare(resultV, VStruct(zero)),
                         R.Then(R.EnterList, R.Then(required, R.Then(more, R.LeaveList))));
        case SliceOp(elem) =>
          var sliceV := Temp();
          var elemResult, elemCode := GenDecode(elem);
          result := R.Tmp(sliceV);
          code := R.Then(R.Declare(sliceV, VSlice(true, [])),
                         R.Then(R.EnterList,
                                R.Then(R.WhileMore(R.Then(elemCode, R.Append(sliceV, elemResult))), R.LeaveList)));
      }
    }

    method GenDecFields(fields: Fields, resultV: nat) returns (code: R.Code)
      modifies this
      ensures (code, tempCounter) == R.GenDecFields(fields, resultV, old(tempCounter))
      decreases fields, 0
    {
      var b: seq<R.Code>, fs := [], fields;
      while fs != NoFields
        invariant fs == fields || (fields decreases to fs)
        invariant var (rest, k) := R.GenDecFields(fs, resultV, tempCounter);
                  R.GenDecFields(fields, resultV, old(tempCounter)) == (RBlock(b, rest), k)
        decreases fs
      {
        var r, c := GenDecode(fs.op);
        var assign := R.Assign(resultV, fs.index, r);
        var rest := R.GenDecFields(fs.rest, resultV, tempCounter).0;
        RAppend(b, c, R.Then(assign, rest));
        RAppend(b + [c], assign, rest);
        b, fs := b + [c] + [assign], fs.rest;
      }
      code := RBlock(b, R.Nop);
    }

    method DecodeOptionalFields(optional: Fields, resultV: nat) returns (code: R.Code)
      modifies this
      ensures (code, tempCounter) == R.GenDecOptional(optional, resultV, old(tempCounter))
      decreases optional, 0
    {
      var b: seq<(R.Code, R.Code)>, fs := [], optional;
      while fs != NoFields
        invariant fs == optional || (optional decreases to fs)
        invariant var (rest, k) := R.GenDecOptional(fs, resultV, tempCounter);
                  R.GenDecOptional(optional, resultV, old(tempCounter)) == (Nested(b, rest), k)
        decreases fs
      {
        var r, c := GenDecode(fs.op);
        var x := (c, R.Assign(resultV, fs.index, r));
        NestedAppend(b, x, R.GenDecOptional(fs.rest, resultV, tempCounter).0);
        b, fs := b + [x], fs.rest;
      }
      code := Nested(b, R.Nop);
    }

    // ---------- the two generated functions ----------

    /** generateEncoder: the body of EncodeRLP, on the receiver obj. */
    method GenerateEncoder(op: Op) returns (code: W.Code)
      modifies this
      ensures code == W.GenWrite(op, W.Obj, 0).0
    {
      ResetTemp();
      code := GenWrite(op, W.Obj);
    }

    /** generateDecoder: the body of DecodeRLP, and the expression it assigns to *obj. */
    method GenerateDecoder(op: Op) returns (result: R.Expr, code: R.Code)
      modifies this
      ensures (result, code) == (R.GenDecode(op, 0).0, R.GenDecode(op, 0).1)
    {
      ResetTemp();
      result, code := GenDecode(op);
    }
  }
}
