/** What it means that a value comes back alike, for values without pointers, said of the values alone. */
module RlpAlike {
  import opened RlpOps
  import opened RlpRoundTrip

  /** The same value up to slices that are nil or empty. */
  predicate Near(v: Val, u: Val) {
    match v
    case VBytes(_, s) => u.VBytes? && u.s == s
    case VSlice(_, elems) =>
      u.VSlice? && |u.elems| == |elems| && forall i :: 0 <= i < |elems| ==> Near(elems[i], u.elems[i])
    case VStruct(fields) =>
      u.VStruct? && |u.fields| == |fields| && forall i :: 0 <= i < |fields| ==> Near(fields[i], u.fields[i])
    case _ => u == v
  }

  lemma {:induction false} NearSelf(v: Val)
    ensures Near(v, v)
  {
    match v {
      case VSlice(_, elems) =>
        forall i | 0 <= i < |elems|
          ensures Near(elems[i], elems[i])
        {
          NearSelf(elems[i]);
        }
      case VStruct(fields) =>
        forall i | 0 <= i < |fields|
          ensures Near(fields[i], fields[i])
        {
          NearSelf(fields[i]);
        }
      case _ =>
    }
  }

  /** No pointers, and every struct field takes part in the encoding. */
  predicate Plain(op: Op)
    decreases op, 0
  {
    match op
    case BigIntOp(p) => !p
    case PtrOp(_, _, _) => false
    case StructOp(z, fs, os) =>
      FieldsPlain(fs) && FieldsPlain(os) && forall i :: 0 <= i < |z| ==> i in Indices(fs) || i in Indices(os)
    case SliceOp(e) => Plain(e)
    case _ => true
  }

  predicate FieldsPlain(fs: Fields)
    decreases fs, 0
  {
    fs == NoFields || (Plain(fs.op) && FieldsPlain(fs.rest))
  }

  /** Values of such a type are alike exactly when they are the same up to nil or empty slices. */
  lemma {:induction false} AlikeIff(op: Op, v: Val, u: Val)
    requires Plain(op) && Fits(op, v)
    ensures Alike(op, v, u) <==> Near(v, u)
    decreases op, 1
  {
    NearSelf(v);
    match op {
      case StructOp(z, fs, os) =>
        if u.VStruct? && |u.fields| == |v.fields| {
          FieldsAlikeIff(fs, v.fields, u.fields);
          FieldsAlikeIff(os, v.fields, u.fields);
          assert Near(v, u) <==> forall i :: 0 <= i < |v.fields| ==> Near(v.fields[i], u.fields[i]);
        }
      case SliceOp(e) =>
        if u.VSlice? && |u.elems| == |v.elems| {
          AllAlikeIff(e, v.elems, u.elems);
        }
      case _ =>
    }
  }

  lemma {:induction false} FieldsAlikeIff(fs: Fields, vs: seq<Val>, us: seq<Val>)
    requires FieldsPlain(fs) && FieldsFit(fs, vs) && |us| == |vs|
    ensures FieldsAlike(fs, vs, us) <==> forall i :: 0 <= i < |vs| && i in Indices(fs) ==> Near(vs[i], us[i])
    decreases fs, 0
  {
    if fs != NoFields {
      AlikeIff(fs.op, vs[fs.index], us[fs.index]);
      FieldsAlikeIff(fs.rest, vs, us);
      assert fs.index in Indices(fs);
    }
  }

  lemma {:induction false} AllAlikeIff(op: Op, vs: seq<Val>, us: seq<Val>)
    requires Plain(op) && AllFit(op, vs) && |us| == |vs|
    ensures AllAlike(op, vs, us) <==> forall i :: 0 <= i < |vs| ==> Near(vs[i], us[i])
    decreases op, |vs| + 1
  {
    if vs != [] {
      var n := |vs| - 1;
      AllAlikeIff(op, vs[..n], us[..n]);
      AlikeIff(op, vs[n], us[n]);
      assert forall i :: 0 <= i < n ==> vs[..n][i] == vs[i] && us[..n][i] == us[i];
    }
  }
}
