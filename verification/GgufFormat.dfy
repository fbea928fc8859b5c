/** The GGUF header as bytes: little-endian scalars, length-prefixed strings, metadata
    and tensor records -- what reading at a position means, and a writer. */
module GgufFormat {

  type Byte = x: int | 0 <= x < 256
  type Bytes = seq<Byte>

  datatype Result<T> = Ok(value: T, pos: nat) | Fail

  /** A metadata scalar.  Floats are kept as the bit pattern read. */
  datatype Scalar = Int(i: int) | F32(bits: nat) | F64(bits: nat) | Bool(b: bool) | Str(s: Bytes)

  datatype Value = One(scalar: Scalar) | Many(item: int, elems: seq<Scalar>)

  datatype Entry = Entry(kind: int, value: Value)

  datatype Pair = Pair(key: Bytes, entry: Entry)

  datatype Tensor = Tensor(name: Bytes, dims: seq<nat>, kind: int, offset: nat)

  const STRING := 8
  const ARRAY := 9

  // ----- little-endian integers -----

  function Pow256(n: nat): (p: nat)
    ensures p >= 1
  {
    if n == 0 then 1 else 256 * Pow256(n - 1)
  }

  const U32 := 0x1_0000_0000
  const U64 := 0x1_0000_0000_0000_0000
  const I64_MAX := 0x7FFF_FFFF_FFFF_FFFF

  lemma Widths()
    ensures Pow256(1) == 256 && Pow256(2) == 0x1_0000 && Pow256(4) == U32 && Pow256(8) == U64
  {
    assert Pow256(2) == 0x1_0000;
    assert Pow256(4) == U32;
    assert Pow256(6) == 0x1_0000_0000_0000;
  }

  function FromLE(b: Bytes): (v: nat)
    ensures v < Pow256(|b|)
  {
    if b == [] then 0 else b[0] + 256 * FromLE(b[1..])
  }

  function ToLE(v: nat, n: nat): (b: Bytes)
    ensures |b| == n
  {
    if n == 0 then [] else [v % 256] + ToLE(v / 256, n - 1)
  }

  lemma {:induction false} LERoundTrip(v: nat, n: nat)
    requires v < Pow256(n)
    ensures FromLE(ToLE(v, n)) == v
  {
    if n > 0 {
      LERoundTrip(v / 256, n - 1);
      assert ToLE(v, n)[1..] == ToLE(v / 256, n - 1);
    }
  }

  /** Two's complement. */
  function Signed(v: nat, n: nat): int
    requires v < Pow256(n)
  {
    if 2 * v >= Pow256(n) then v - Pow256(n) else v
  }

  // ----- reading at a position -----

  /** The bounds-checked read every other read is made of. */
  function BytesAt(data: Bytes, pos: nat, n: nat): (r: Result<Bytes>)
    ensures r.Ok? ==> r.pos == pos + n <= |data| && |r.value| == n
  {
    if pos + n <= |data| then Ok(data[pos..pos + n], pos + n) else Fail
  }

  function UIntAt(data: Bytes, pos: nat, n: nat): (r: Result<nat>)
    ensures r.Ok? ==> r.pos == pos + n <= |data| && r.value < Pow256(n)
  {
    match BytesAt(data, pos, n)
    case Ok(b, p) => Ok(FromLE(b), p)
    case Fail => Fail
  }

  function StringAt(data: Bytes, pos: nat): (r: Result<Bytes>)
    ensures r.Ok? ==> pos + 8 <= r.pos <= |data|
  {
    match UIntAt(data, pos, 8)
    case Ok(n, p) => BytesAt(data, p, n)
    case Fail => Fail
  }

  /** The byte width of a fixed-size metadata type. */
  function Width(kind: int): nat {
    if kind in {0, 1, 7} then 1 else if kind in {2, 3} then 2 else if kind in {4, 5, 6} then 4 else 8
  }

  predicate IsSigned(kind: int) { kind in {1, 3, 5, 11} }
  predicate IsInt(kind: int) { kind in {0, 1, 2, 3, 4, 5, 10, 11} }
  predicate IsScalar(kind: int) { 0 <= kind <= 12 && kind != ARRAY }

  /** What a fixed-size scalar's bits mean; every integer lands in an int64. */
  function Decode(kind: int, v: nat): Scalar
    requires IsScalar(kind) && kind != STRING && v < Pow256(Width(kind))
  {
    if kind == 7 then Bool(v != 0)
    else if kind == 6 then F32(v)
    else if kind == 12 then F64(v)
    else if IsSigned(kind) || kind == 10 then Int(Signed(v, Width(kind)))
    else Int(v)
  }

  /** A type this build cannot read is refused. */
  function ScalarAt(data: Bytes, pos: nat, kind: int): (r: Result<Scalar>)
    ensures r.Ok? ==> pos < r.pos <= |data| && IsScalar(kind)
  {
    if kind == STRING then
      match StringAt(data, pos)
      case Ok(s, p) => Ok(Str(s), p)
      case Fail => Fail
    else if IsScalar(kind) then
      match UIntAt(data, pos, Width(kind))
      case Ok(v, p) => Ok(Decode(kind, v), p)
      case Fail => Fail
    else Fail
  }

  /** How one item is read. */
  type Reader<!T> = (Bytes, nat) -> Result<T>

  /** `count` items one after the other. */
  function ListAt<T>(data: Bytes, pos: nat, count: nat, read: Reader<T>): (r: Result<seq<T>>)
    ensures r.Ok? ==> |r.value| == count
    decreases count
  {
    if count == 0 then Ok([], pos)
    else
      match ListAt(data, pos, count - 1, read)
      case Fail => Fail
      case Ok(head, p) =>
        match read(data, p)
        case Fail => Fail
        case Ok(e, q) => Ok(head + [e], q)
  }

  function ScalarReader(kind: int): Reader<Scalar> { (data: Bytes, pos: nat) => ScalarAt(data, pos, kind) }

  /** `read_array`.  A nested array is refused; an item type nobody knows is refused by
      its first element, so an empty array of it is accepted. */
  function ArrayAt(data: Bytes, pos: nat, item: int, count: nat): (r: Result<Value>)
  {
    if item == ARRAY then Fail
    else
      match ListAt(data, pos, count, ScalarReader(item))
      case Ok(elems, p) => Ok(Many(item, elems), p)
      case Fail => Fail
  }

  /** `static_cast<int>` of a uint32. */
  function AsInt32(v: nat): int
    requires v < U32
  {
    if v >= 0x8000_0000 then v - U32 else v
  }

  function Int32At(data: Bytes, pos: nat): (r: Result<int>)
    ensures r.Ok? ==> r.pos == pos + 4 <= |data|
  {
    Widths();
    match UIntAt(data, pos, 4)
    case Ok(v, p) => Ok(AsInt32(v), p)
    case Fail => Fail
  }

  function ValueAt(data: Bytes, pos: nat, kind: int): (r: Result<Value>)
  {
    if kind == ARRAY then
      match Int32At(data, pos)
      case Fail => Fail
      case Ok(item, p) =>
        match UIntAt(data, p, 8)
        case Fail => Fail
        case Ok(count, q) => ArrayAt(data, q, item, count)
    else
      match ScalarAt(data, pos, kind)
      case Ok(s, p) => Ok(One(s), p)
      case Fail => Fail
  }

  /** A metadata record, however its value is read. */
  function PairOf(data: Bytes, pos: nat, readValue: (Bytes, nat, int) -> Result<Value>): (r: Result<Pair>)
  {
    match StringAt(data, pos)
    case Fail => Fail
    case Ok(key, p) =>
      match Int32At(data, p)
      case Fail => Fail
      case Ok(kind, q) =>
        match readValue(data, q, kind)
        case Fail => Fail
        case Ok(value, t) => Ok(Pair(key, Entry(kind, value)), t)
  }

  function PairAt(data: Bytes, pos: nat): (r: Result<Pair>) { PairOf(data, pos, ValueAt) }

  function U64Reader(): Reader<nat> { (data: Bytes, pos: nat) => UIntAt(data, pos, 8) }

  function TensorAt(data: Bytes, pos: nat): (r: Result<Tensor>)
  {
    match StringAt(data, pos)
    case Fail => Fail
    case Ok(name, p) =>
      match UIntAt(data, p, 4)
      case Fail => Fail
      case Ok(nDims, q) =>
        match ListAt(data, q, nDims, U64Reader())
        case Fail => Fail
        case Ok(dims, t) =>
          match Int32At(data, t)
          case Fail => Fail
          case Ok(kind, u) =>
            match UIntAt(data, u, 8)
            case Fail => Fail
            case Ok(offset, w) => Ok(Tensor(name, dims, kind, offset), w)
  }

  /** A whole header: tensor count before metadata count. */
  datatype Header = Header(version: nat, pairs: seq<Pair>, tensors: seq<Tensor>)

  const MAGIC: Bytes := [71, 71, 85, 70]

  /** The header, however its records are read. */
  function HeaderOf(data: Bytes, readPair: Reader<Pair>, readTensor: Reader<Tensor>): (r: Result<Header>)
  {
    match BytesAt(data, 0, 4)
    case Fail => Fail
    case Ok(magic, p) =>
      if magic != MAGIC then Fail
      else
        match UIntAt(data, p, 4)
        case Fail => Fail
        case Ok(version, q) =>
          match UIntAt(data, q, 8)
          case Fail => Fail
          case Ok(tensorCount, t) =>
            match UIntAt(data, t, 8)
            case Fail => Fail
            case Ok(metadataCount, u) =>
              match ListAt(data, u, metadataCount, readPair)
              case Fail => Fail
              case Ok(pairs, w) =>
                match ListAt(data, w, tensorCount, readTensor)
                case Fail => Fail
                case Ok(tensors, x) => Ok(Header(version, pairs, tensors), x)
  }

  function HeaderAt(data: Bytes): (r: Result<Header>) { HeaderOf(data, PairAt, TensorAt) }

  // ----- the writer -----

  /** How one item is written. */
  type Writer<!T> = T -> Bytes

  function WriteList<T>(items: seq<T>, write: Writer<T>): Bytes
    decreases |items|
  {
    if items == [] then [] else WriteList(items[..|items| - 1], write) + write(items[|items| - 1])
  }

  function WriteString(s: Bytes): Bytes { ToLE(|s|, 8) + s }

  /** Two's complement bits, or zero when there are none. */
  function Bits(i: int, n: nat): nat {
    if i >= 0 then i else if i + Pow256(n) >= 0 then i + Pow256(n) else 0
  }

  function WriteInt32(i: int): Bytes { ToLE(Bits(i, 4), 4) }

  /** A scalar its type can carry.  An unsigned 64-bit integer must fit an int64. */
  predicate Carries(kind: int, s: Scalar) {
    IsScalar(kind) &&
    match s
    case Str(t) => kind == STRING && |t| < U64
    case Bool(_) => kind == 7
    case F32(bits) => kind == 6 && bits < U32
    case F64(bits) => kind == 12 && bits < U64
    case Int(i) =>
      IsInt(kind)
      && (if IsSigned(kind) then -(Pow256(Width(kind)) as int) <= 2 * i < Pow256(Width(kind))
          else if kind == 10 then 0 <= i <= I64_MAX
          else 0 <= i < Pow256(Width(kind)))
  }

  function WriteScalar(kind: int, s: Scalar): Bytes {
    match s
    case Str(t) => WriteString(t)
    case Bool(b) => ToLE(if b then 1 else 0, 1)
    case F32(bits) => ToLE(bits, 4)
    case F64(bits) => ToLE(bits, 8)
    case Int(i) => ToLE(Bits(i, Width(kind)), Width(kind))
  }

  function ScalarWriter(kind: int): Writer<Scalar> { (s: Scalar) => WriteScalar(kind, s) }

  /** No nested arrays. */
  predicate EntryFits(e: Entry) {
    match e.value
    case One(s) => Carries(e.kind, s)
    case Many(item, elems) =>
      e.kind == ARRAY && IsScalar(item) && |elems| < U64 && forall e | e in elems :: Carries(item, e)
  }

  function WriteValue(e: Entry): Bytes {
    match e.value
    case One(s) => WriteScalar(e.kind, s)
    case Many(item, elems) => WriteInt32(item) + ToLE(|elems|, 8) + WriteList(elems, ScalarWriter(item))
  }

  predicate PairFits(p: Pair) { |p.key| < U64 && EntryFits(p.entry) }

  function WritePair(p: Pair): Bytes { WriteString(p.key) + WriteInt32(p.entry.kind) + WriteValue(p.entry) }

  predicate TensorFits(t: Tensor) {
    && |t.name| < U64 && |t.dims| < U32 && (forall d | d in t.dims :: d < U64)
    && -0x8000_0000 <= t.kind < 0x8000_0000 && t.offset < U64
  }

  function U64Writer(): Writer<nat> { (v: nat) => ToLE(v, 8) }

  function Cat5(a: Bytes, b: Bytes, c: Bytes, d: Bytes, e: Bytes): Bytes { a + b + c + d + e }

  function WriteTensor(t: Tensor): Bytes {
    Cat5(WriteString(t.name), ToLE(|t.dims|, 4), WriteList(t.dims, U64Writer()), WriteInt32(t.kind), ToLE(t.offset, 8))
  }

  predicate HeaderFits(h: Header) {
    && h.version < U32 && |h.pairs| < U64 && |h.tensors| < U64
    && (forall p | p in h.pairs :: PairFits(p))
    && forall t | t in h.tensors :: TensorFits(t)
  }

  /** Magic, version and the two counts. */
  function Fixed(h: Header): Bytes { MAGIC + ToLE(h.version, 4) + ToLE(|h.tensors|, 8) + ToLE(|h.pairs|, 8) }

  function WriteHeaderOf(h: Header, writePair: Writer<Pair>, writeTensor: Writer<Tensor>): Bytes {
    Fixed(h) + WriteList(h.pairs, writePair) + WriteList(h.tensors, writeTensor)
  }

  function WriteHeader(h: Header): Bytes { WriteHeaderOf(h, WritePair, WriteTensor) }
}
