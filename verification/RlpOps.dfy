/**
 The operation trees of rlp/rlpgen/gen.go and what they mean: the item an operation writes for a
 value and the value it reads from an item. Items are those of appendix B of the Ethereum Yellow
 Paper, byte strings and lists.
 */
module RlpOps {
  import opened Wrappers
  import opened Bytes
  import opened Powers

  datatype Item = Str(bytes: seq<Byte>) | List(items: seq<Item>)

  /** Go values. A slice remembers whether it is nil; a nil slice has no elements. */
  datatype Val =
    | VBool(b: bool)
    | VUint(n: nat)
    | VString(s: seq<Byte>)
    | VBytes(isNil: bool, s: seq<Byte>)
    | VArray(s: seq<Byte>)
    | VBig(i: int)
    | VNil
    | VPtr(to: Val)
    | VStruct(fields: seq<Val>)
    | VSlice(isNil: bool, elems: seq<Val>)

  datatype NilKind = NilString | NilList

  function Marker(k: NilKind): Item {
    match k
    case NilString => Str([])
    case NilList => List([])
  }

  /** basicOp's four uses. A uint has a size in bytes; conv says that decoding converts the result. */
  datatype Basic = BoolB | UintB(size: nat) | StringB | BytesB

  /** zero is the zero value of the type in question; a field also has its index in the struct. */
  datatype Op =
    | BasicOp(kind: Basic, conv: bool)
    | ByteArrayOp(len: nat)
    | BigIntOp(pointer: bool)
    | PtrOp(elem: Op, nilOK: bool, nilValue: NilKind)
    | StructOp(zero: seq<Val>, fields: Fields, optional: Fields)
    | SliceOp(elem: Op)

  datatype Fields = NoFields | Field(index: nat, zero: Val, op: Op, rest: Fields)

  function Length(fs: Fields): nat {
    if fs == NoFields then 0 else 1 + Length(fs.rest)
  }

  datatype Error = ErrNegativeBigInt | ErrDecode | Panic

  // ---------- values of an operation's type ----------

  predicate Fits(op: Op, v: Val)
    decreases op, 0
  {
    match op
    case BasicOp(k, _) => FitsBasic(k, v)
    case ByteArrayOp(n) => v.VArray? && |v.s| == n
    case BigIntOp(p) => if p then v == VNil || (v.VPtr? && v.to.VBig?) else v.VBig?
    case PtrOp(e, _, _) => v == VNil || (v.VPtr? && Fits(e, v.to))
    case StructOp(z, fs, os) => v.VStruct? && |v.fields| == |z| && FieldsFit(fs, v.fields) && FieldsFit(os, v.fields)
    case SliceOp(e) => v.VSlice? && (v.isNil ==> v.elems == []) && AllFit(e, v.elems)
  }

  predicate FitsBasic(k: Basic, v: Val) {
    match k
    case BoolB => v.VBool?
    case UintB(size) => v.VUint? && v.n < Pow(256, size)
    case StringB => v.VString?
    case BytesB => v.VBytes? && (v.isNil ==> v.s == [])
  }

  predicate FieldsFit(fs: Fields, vs: seq<Val>)
    decreases fs, 0
  {
    match fs
    case NoFields => true
    case Field(i, _, op, rest) => i < |vs| && Fits(op, vs[i]) && FieldsFit(rest, vs)
  }

  predicate AllFit(op: Op, vs: seq<Val>)
    decreases op, |vs| + 1
  {
    vs == [] || (AllFit(op, vs[..|vs| - 1]) && Fits(op, vs[|vs| - 1]))
  }

  /** nonZeroCheck: a slice is non-zero when it has elements, anything else when it differs from zero. */
  predicate NonZero(zero: Val, v: Val) {
    if v.VSlice? then |v.elems| > 0
    else if v.VBytes? then |v.s| > 0
    else v != zero
  }

  /** The condition on an optional field: it or a later one is non-zero. */
  predicate AnyNonZero(fs: Fields, vs: seq<Val>)
    requires FieldsFit(fs, vs)
  {
    match fs
    case NoFields => false
    case Field(i, z, _, rest) => NonZero(z, vs[i]) || AnyNonZero(rest, vs)
  }

  // ---------- writing ----------

  function Enc(op: Op, v: Val): Result<Item, Error>
    requires Fits(op, v)
    decreases op, 0
  {
    match op
    case BasicOp(k, _) => Ok(EncBasic(k, v))
    case ByteArrayOp(_) => Ok(Str(v.s))
    case BigIntOp(p) =>
      if !p then EncBig(v.i) else if v == VNil then Ok(Str([])) else EncBig(v.to.i)
    case PtrOp(e, _, k) => if v == VNil then Ok(Marker(k)) else Enc(e, v.to)
    case StructOp(_, fs, os) =>
      (match EncFields(fs, v.fields)
       case Err(e) => Err(e)
       case Ok(required) =>
         match EncOptional(os, v.fields)
         case Err(e) => Err(e)
         case Ok(more) => Ok(List(required + more)))
    case SliceOp(e) =>
      match EncAll(e, v.elems)
      case Err(e) => Err(e)
      case Ok(items) => Ok(List(items))
  }

  function EncBasic(k: Basic, v: Val): Item
    requires FitsBasic(k, v)
  {
    match k
    case BoolB => Str(if v.b then [1] else [])
    case UintB(_) => Str(Shortest(v.n))
    case StringB => Str(v.s)
    case BytesB => Str(v.s)
  }

  function EncBig(i: int): Result<Item, Error> {
    if i < 0 then Err(ErrNegativeBigInt) else Ok(Str(Shortest(i)))
  }

  function EncFields(fs: Fields, vs: seq<Val>): Result<seq<Item>, Error>
    requires FieldsFit(fs, vs)
    decreases fs, 0
  {
    match fs
    case NoFields => Ok([])
    case Field(i, _, op, rest) =>
      match Enc(op, vs[i])
      case Err(e) => Err(e)
      case Ok(item) =>
        match EncFields(rest, vs)
        case Err(e) => Err(e)
        case Ok(items) => Ok([item] + items)
  }

  /** Optional fields are written up to the last non-zero one. */
  function EncOptional(fs: Fields, vs: seq<Val>): Result<seq<Item>, Error>
    requires FieldsFit(fs, vs)
    decreases fs, 0
  {
    if !AnyNonZero(fs, vs) then Ok([])
    else
      match Enc(fs.op, vs[fs.index])
      case Err(e) => Err(e)
      case Ok(item) =>
        match EncOptional(fs.rest, vs)
        case Err(e) => Err(e)
        case Ok(items) => Ok([item] + items)
  }

  function EncAll(op: Op, vs: seq<Val>): Result<seq<Item>, Error>
    requires AllFit(op, vs)
    decreases op, |vs| + 1
  {
    if vs == [] then Ok([])
    else
      match EncAll(op, vs[..|vs| - 1])
      case Err(e) => Err(e)
      case Ok(items) =>
        match Enc(op, vs[|vs| - 1])
        case Err(e) => Err(e)
        case Ok(item) => Ok(items + [item])
  }

  // ---------- reading ----------

  /**
   Where a decoder stands in a list. Asking for the kind of the next item takes its header out of the
   list and holds it until a value is decoded; a held item is still the first of items.
   */
  datatype Cursor = Cursor(items: seq<Item>, held: bool)

  /** MoreDataInList: whether anything is left behind a held header. */
  predicate More(c: Cursor) {
    |c.items| > if c.held then 1 else 0
  }

  /** Whether reading the item ends in the nil branch of a tagged pointer, which decodes no value. */
  predicate Keeps(op: Op, item: Item) {
    op.PtrOp? && ((op.nilOK && item == Marker(op.nilValue)) || Keeps(op.elem, item))
  }

  /** Slice elements have no tags, so none of them is read as such a nil. */
  predicate MayKeep(op: Op) {
    op.PtrOp? && (op.nilOK || MayKeep(op.elem))
  }

  function After(op: Op, c: Cursor): Cursor
    requires c.items != []
  {
    if Keeps(op, c.items[0]) then Cursor(c.items, true) else Cursor(c.items[1..], false)
  }

  function Dec(op: Op, item: Item): Result<Val, Error>
    decreases op, 0
  {
    match op
    case BasicOp(k, _) => DecBasic(k, item)
    case ByteArrayOp(n) => if item.Str? && |item.bytes| == n then Ok(VArray(item.bytes)) else Err(ErrDecode)
    case BigIntOp(p) =>
      if !Canonical(item) then Err(ErrDecode)
      else
        var v := VBig(BigEndian(item.bytes));
        Ok(if p then VPtr(v) else v)
    case PtrOp(e, nilOK, k) =>
      if nilOK && item == Marker(k) then Ok(VNil)
      else (match Dec(e, item)
            case Err(e) => Err(e)
            case Ok(v) => Ok(VPtr(v)))
    case StructOp(z, fs, os) =>
      if !item.List? then Err(ErrDecode)
      else (match DecFields(fs, Cursor(item.items, false), z)
            case Err(e) => Err(e)
            case Ok((vs, rest)) =>
              match DecOptional(os, rest, vs)
              case Err(e) => Err(e)
              case Ok((us, left)) => if More(left) then Err(ErrDecode) else Ok(VStruct(us)))
    case SliceOp(e) =>
      if !item.List? then Err(ErrDecode)
      else match DecAll(e, item.items)
        case Err(e) => Err(e)
        case Ok(vs) => Ok(VSlice(vs == [], vs))
  }

  /** An integer has no leading zero byte. */
  predicate Canonical(item: Item) {
    item.Str? && (item.bytes != [] ==> item.bytes[0] != 0)
  }

  function DecBasic(k: Basic, item: Item): Result<Val, Error> {
    match k
    case BoolB =>
      if item == Str([]) then Ok(VBool(false)) else if item == Str([1]) then Ok(VBool(true)) else Err(ErrDecode)
    case UintB(size) =>
      if Canonical(item) && |item.bytes| <= size then Ok(VUint(BigEndian(item.bytes))) else Err(ErrDecode)
    case StringB => if item.Str? then Ok(VString(item.bytes)) else Err(ErrDecode)
    case BytesB => if item.Str? then Ok(VBytes(false, item.bytes)) else Err(ErrDecode)
  }

  function Put(vs: seq<Val>, i: nat, v: Val): seq<Val> {
    if i < |vs| then vs[i := v] else vs
  }

  function DecFields(fs: Fields, c: Cursor, vs: seq<Val>): Result<(seq<Val>, Cursor), Error>
    decreases fs, 0
  {
    match fs
    case NoFields => Ok((vs, c))
    case Field(i, _, op, rest) =>
      if c.items == [] then Err(ErrDecode)
      else match Dec(op, c.items[0])
        case Err(e) => Err(e)
        case Ok(v) => DecFields(rest, After(op, c), Put(vs, i, v))
  }

  function DecOptional(fs: Fields, c: Cursor, vs: seq<Val>): Result<(seq<Val>, Cursor), Error>
    decreases fs, 0
  {
    if fs == NoFields || !More(c) then Ok((vs, c))
    else match Dec(fs.op, c.items[0])
      case Err(e) => Err(e)
      case Ok(v) => DecOptional(fs.rest, After(fs.op, c), Put(vs, fs.index, v))
  }

  function DecAll(op: Op, items: seq<Item>): Result<seq<Val>, Error>
    decreases op, |items| + 1
  {
    if items == [] then Ok([])
    else
      match DecAll(op, items[..|items| - 1])
      case Err(e) => Err(e)
      case Ok(vs) =>
        match Dec(op, items[|items| - 1])
        case Err(e) => Err(e)
        case Ok(v) => Ok(vs + [v])
  }

  // ---------- markers that another item follows ----------

  /** The value is written as the marker of its tag, so that reading it decodes nothing. */
  predicate Marks(op: Op, v: Val)
    requires Fits(op, v)
  {
    Enc(op, v).Ok? && Keeps(op, Enc(op, v).value)
  }

  /** A required field is written as the marker of its tag, and another item of the struct follows. */
  predicate Followed(fs: Fields, vs: seq<Val>, more: bool)
    requires FieldsFit(fs, vs)
  {
    fs != NoFields
    && ((Marks(fs.op, vs[fs.index]) && (fs.rest != NoFields || more)) || Followed(fs.rest, vs, more))
  }

  predicate OptionalFollowed(fs: Fields, vs: seq<Val>)
    requires FieldsFit(fs, vs)
  {
    AnyNonZero(fs, vs)
    && ((Marks(fs.op, vs[fs.index]) && AnyNonZero(fs.rest, vs)) || OptionalFollowed(fs.rest, vs))
  }

  predicate AllWritten(fs: Fields, vs: seq<Val>)
    requires FieldsFit(fs, vs)
  {
    fs == NoFields || (AnyNonZero(fs, vs) && AllWritten(fs.rest, vs))
  }

  /**
   In no struct that is written does an item follow the marker of a tagged pointer; if lax, one may
   in a struct with all its optional fields written.
   */
  predicate Apart(op: Op, v: Val, lax: bool)
    requires Fits(op, v)
    decreases op, 0
  {
    match op
    case PtrOp(e, nilOK, k) => v == VNil || (nilOK && Enc(e, v.to) == Ok(Marker(k))) || Apart(e, v.to, lax)
    case StructOp(_, fs, os) =>
      && ((!Followed(fs, v.fields, AnyNonZero(os, v.fields)) && !OptionalFollowed(os, v.fields))
          || (lax && AllWritten(os, v.fields)))
      && FieldsApart(fs, v.fields, lax) && OptionalApart(os, v.fields, lax)
    case SliceOp(e) => AllApart(e, v.elems, lax)
    case _ => true
  }

  predicate FieldsApart(fs: Fields, vs: seq<Val>, lax: bool)
    requires FieldsFit(fs, vs)
    decreases fs, 0
  {
    fs == NoFields || (Apart(fs.op, vs[fs.index], lax) && FieldsApart(fs.rest, vs, lax))
  }

  predicate OptionalApart(fs: Fields, vs: seq<Val>, lax: bool)
    requires FieldsFit(fs, vs)
    decreases fs, 0
  {
    !AnyNonZero(fs, vs) || (Apart(fs.op, vs[fs.index], lax) && OptionalApart(fs.rest, vs, lax))
  }

  predicate AllApart(op: Op, vs: seq<Val>, lax: bool)
    requires AllFit(op, vs)
    decreases op, |vs| + 1
  {
    vs == [] || (AllApart(op, vs[..|vs| - 1], lax) && Apart(op, vs[|vs| - 1], lax))
  }

  // ---------- what comes back ----------

  /** Whether reading the marker as a value of the operation's own type succeeds. */
  predicate TakesMarker(op: Op, k: NilKind) {
    match op
    case BasicOp(_, _) => k.NilString?
    case ByteArrayOp(n) => k.NilString? && n == 0
    case BigIntOp(_) => k.NilString?
    case PtrOp(e, nilOK, k') => (nilOK && k == k') || TakesMarker(e, k)
    case StructOp(_, fs, _) => k.NilList? && fs == NoFields
    case SliceOp(_) => k.NilList?
  }

  /**
   Every nil pointer that is written comes from a field with a nil tag, or points to a type that
   reads its marker as a value.
   */
  predicate Readable(op: Op, v: Val)
    requires Fits(op, v)
    decreases op, 0
  {
    match op
    case BasicOp(_, _) => true
    case ByteArrayOp(_) => true
    case BigIntOp(_) => true
    case PtrOp(e, nilOK, k) =>
      if v == VNil then nilOK || TakesMarker(e, k)
      else (nilOK && Enc(e, v.to) == Ok(Marker(k))) || Readable(e, v.to)
    case StructOp(_, fs, os) => FieldsReadable(fs, v.fields) && OptionalReadable(os, v.fields)
    case SliceOp(e) => AllReadable(e, v.elems)
  }

  predicate FieldsReadable(fs: Fields, vs: seq<Val>)
    requires FieldsFit(fs, vs)
    decreases fs, 0
  {
    fs == NoFields || (Readable(fs.op, vs[fs.index]) && FieldsReadable(fs.rest, vs))
  }

  predicate OptionalReadable(fs: Fields, vs: seq<Val>)
    requires FieldsFit(fs, vs)
    decreases fs, 0
  {
    !AnyNonZero(fs, vs) || (Readable(fs.op, vs[fs.index]) && OptionalReadable(fs.rest, vs))
  }

  predicate AllReadable(op: Op, vs: seq<Val>)
    requires AllFit(op, vs)
    decreases op, |vs| + 1
  {
    vs == [] || (AllReadable(op, vs[..|vs| - 1]) && Readable(op, vs[|vs| - 1]))
  }

  /**
   The value that comes back: a nil slice for an empty one, empty bytes for nil ones, nil for a
   tagged pointer to a value written as the nil marker, a pointer for an untagged nil, zero for
   what is not written.
   */
  function Canon(op: Op, v: Val): Val
    requires Fits(op, v)
    decreases op, 0
  {
    match op
    case BasicOp(_, _) => if v.VBytes? then VBytes(false, v.s) else v
    case ByteArrayOp(_) => v
    case BigIntOp(_) => if v == VNil then VPtr(VBig(0)) else v
    case PtrOp(e, nilOK, k) =>
      if v == VNil then
        (match Dec(e, Marker(k))
         case Ok(u) => if nilOK then VNil else VPtr(u)
         case Err(_) => VNil)
      else if nilOK && Enc(e, v.to) == Ok(Marker(k)) then VNil
      else VPtr(Canon(e, v.to))
    case StructOp(z, fs, os) => VStruct(CanonOptional(os, v.fields, CanonFields(fs, v.fields, z)))
    case SliceOp(e) => VSlice(v.elems == [], CanonAll(e, v.elems))
  }

  function CanonFields(fs: Fields, vs: seq<Val>, us: seq<Val>): (r: seq<Val>)
    requires FieldsFit(fs, vs)
    ensures |r| == |us|
    decreases fs, 0
  {
    match fs
    case NoFields => us
    case Field(i, _, op, rest) => CanonFields(rest, vs, Put(us, i, Canon(op, vs[i])))
  }

  function CanonOptional(fs: Fields, vs: seq<Val>, us: seq<Val>): (r: seq<Val>)
    requires FieldsFit(fs, vs)
    ensures |r| == |us|
    decreases fs, 0
  {
    if !AnyNonZero(fs, vs) then us
    else CanonOptional(fs.rest, vs, Put(us, fs.index, Canon(fs.op, vs[fs.index])))
  }

  function CanonAll(op: Op, vs: seq<Val>): (r: seq<Val>)
    requires AllFit(op, vs)
    ensures |r| == |vs|
    decreases op, |vs| + 1
  {
    if vs == [] then [] else CanonAll(op, vs[..|vs| - 1]) + [Canon(op, vs[|vs| - 1])]
  }
}
