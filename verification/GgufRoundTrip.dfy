/** Reading inverts writing, success does not depend on what follows the header, and a
    truncated header never parses. */
module GgufRoundTrip {
  import opened GgufFormat

  /** `b` stands in `data` at `pos`. */
  ghost predicate Has(data: Bytes, pos: nat, b: Bytes) {
    pos + |b| <= |data| && forall k | 0 <= k < |b| :: b[k] == data[pos + k]
  }

  lemma Slice(data: Bytes, pos: nat, b: Bytes)
    requires Has(data, pos, b)
    ensures data[pos..pos + |b|] == b
  {
  }

  lemma Split(data: Bytes, pos: nat, a: Bytes, b: Bytes)
    requires Has(data, pos, a + b)
    ensures Has(data, pos, a) && Has(data, pos + |a|, b)
  {
    forall k | 0 <= k < |a| ensures a[k] == data[pos + k] {
      assert (a + b)[k] == a[k];
    }
    forall k | 0 <= k < |b| ensures b[k] == data[pos + |a| + k] {
      assert (a + b)[|a| + k] == b[k];
    }
  }

  lemma Split3(data: Bytes, pos: nat, a: Bytes, b: Bytes, c: Bytes)
    requires Has(data, pos, a + b + c)
    ensures Has(data, pos, a) && Has(data, pos + |a|, b) && Has(data, pos + |a| + |b|, c)
  {
    Split(data, pos, a + b, c);
    Split(data, pos, a, b);
  }

  lemma Split5(data: Bytes, pos: nat, a: Bytes, b: Bytes, c: Bytes, d: Bytes, e: Bytes)
    requires Has(data, pos, a + b + c + d + e)
    ensures Has(data, pos, a) && Has(data, pos + |a|, b) && Has(data, pos + |a| + |b|, c)
    ensures Has(data, pos + |a| + |b| + |c|, d) && Has(data, pos + |a| + |b| + |c| + |d|, e)
  {
    Split3(data, pos, a + b + c, d, e);
    Split3(data, pos, a, b, c);
  }

  lemma ReadUInt(data: Bytes, pos: nat, v: nat, n: nat)
    requires v < Pow256(n) && Has(data, pos, ToLE(v, n))
    ensures UIntAt(data, pos, n) == Ok(v, pos + n)
  {
    LERoundTrip(v, n);
    Slice(data, pos, ToLE(v, n));
  }

  lemma SignedRoundTrip(i: int, n: nat)
    requires -(Pow256(n) as int) <= 2 * i < Pow256(n)
    ensures Bits(i, n) < Pow256(n) && Signed(Bits(i, n), n) == i
  {
  }

  lemma ReadInt32(data: Bytes, pos: nat, i: int)
    requires -0x8000_0000 <= i < 0x8000_0000 && Has(data, pos, WriteInt32(i))
    ensures Int32At(data, pos) == Ok(i, pos + 4)
  {
    Widths();
    ReadUInt(data, pos, Bits(i, 4), 4);
  }

  lemma ReadString(data: Bytes, pos: nat, s: Bytes)
    requires |s| < U64 && Has(data, pos, WriteString(s))
    ensures StringAt(data, pos) == Ok(s, pos + |WriteString(s)|)
  {
    Widths();
    Split(data, pos, ToLE(|s|, 8), s);
    ReadUInt(data, pos, |s|, 8);
    Slice(data, pos + 8, s);
  }

  lemma ReadScalar(data: Bytes, pos: nat, kind: int, s: Scalar)
    requires Carries(kind, s) && Has(data, pos, WriteScalar(kind, s))
    ensures ScalarAt(data, pos, kind) == Ok(s, pos + |WriteScalar(kind, s)|)
  {
    Widths();
    match s
    case Str(t) => ReadString(data, pos, t);
    case Bool(b) => ReadUInt(data, pos, if b then 1 else 0, 1);
    case F32(bits) => ReadUInt(data, pos, bits, 4);
    case F64(bits) => ReadUInt(data, pos, bits, 8);
    case Int(i) =>
      ReadUInt(data, pos, Bits(i, Width(kind)), Width(kind));
      if IsSigned(kind) { SignedRoundTrip(i, Width(kind)); }
  }

  /** Reading this item where it was written gives it back. */
  ghost predicate Inverts<T(!new)>(read: Reader<T>, write: Writer<T>, item: T) {
    forall data: Bytes, pos: nat | Has(data, pos, write(item)) :: read(data, pos) == Ok(item, pos + |write(item)|)
  }

  /** A list of items that read back reads back. */
  lemma {:induction false} ReadList<T(!new)>(data: Bytes, pos: nat, items: seq<T>, read: Reader<T>, write: Writer<T>)
    requires (forall t | t in items :: Inverts(read, write, t)) && Has(data, pos, WriteList(items, write))
    ensures ListAt(data, pos, |items|, read) == Ok(items, pos + |WriteList(items, write)|)
    decreases |items|
  {
    if items != [] {
      var n := |items| - 1;
      var head, last := items[..n], items[n];
      Split(data, pos, WriteList(head, write), write(last));
      ReadList(data, pos, head, read, write);
      assert Inverts(read, write, last);
      assert head + [last] == items;
      ListIs(data, pos, head, last, read, pos + |WriteList(head, write)|);
    }
  }

  lemma ListIs<T>(data: Bytes, pos: nat, head: seq<T>, last: T, read: Reader<T>, p: nat)
    requires ListAt(data, pos, |head|, read) == Ok(head, p) && read(data, p).Ok? && read(data, p).value == last
    ensures ListAt(data, pos, |head| + 1, read) == Ok(head + [last], read(data, p).pos)
  {
  }

  lemma ScalarInverts(item: int, e: Scalar)
    requires Carries(item, e)
    ensures Inverts(ScalarReader(item), ScalarWriter(item), e)
  {
    forall d: Bytes, p: nat | Has(d, p, ScalarWriter(item)(e))
      ensures ScalarReader(item)(d, p) == Ok(e, p + |ScalarWriter(item)(e)|)
    {
      ReadScalar(d, p, item, e);
    }
  }

  lemma ReadElems(data: Bytes, pos: nat, item: int, elems: seq<Scalar>)
    requires (forall e | e in elems :: Carries(item, e)) && Has(data, pos, WriteList(elems, ScalarWriter(item)))
    ensures ListAt(data, pos, |elems|, ScalarReader(item)) == Ok(elems, pos + |WriteList(elems, ScalarWriter(item))|)
  {
    forall e | e in elems ensures Inverts(ScalarReader(item), ScalarWriter(item), e) {
      ScalarInverts(item, e);
    }
    ReadList(data, pos, elems, ScalarReader(item), ScalarWriter(item));
  }

  lemma ReadValue(data: Bytes, pos: nat, e: Entry)
    requires EntryFits(e) && Has(data, pos, WriteValue(e))
    ensures ValueAt(data, pos, e.kind) == Ok(e.value, pos + |WriteValue(e)|)
  {
    match e.value
    case One(s) => ReadScalar(data, pos, e.kind, s);
    case Many(item, elems) =>
      Widths();
      var a, b, c := WriteInt32(item), ToLE(|elems|, 8), WriteList(elems, ScalarWriter(item));
      Split3(data, pos, a, b, c);
      ReadInt32(data, pos, item);
      ReadUInt(data, pos + 4, |elems|, 8);
      ReadElems(data, pos + 12, item, elems);
  }

  /** The pieces of a record make the record. */
  lemma PairIs(data: Bytes, pos: nat, p: Pair, readValue: (Bytes, nat, int) -> Result<Value>, q: nat, end: nat)
    requires StringAt(data, pos) == Ok(p.key, q) && Int32At(data, q) == Ok(p.entry.kind, q + 4)
    requires readValue(data, q + 4, p.entry.kind) == Ok(p.entry.value, end)
    ensures PairOf(data, pos, readValue) == Ok(p, end)
  {
  }

  ghost predicate ValueInverts(readValue: (Bytes, nat, int) -> Result<Value>, writeValue: Entry -> Bytes, e: Entry) {
    forall data: Bytes, pos: nat | Has(data, pos, writeValue(e)) ::
      readValue(data, pos, e.kind) == Ok(e.value, pos + |writeValue(e)|)
  }

  lemma ReadPairParts(data: Bytes, pos: nat, p: Pair, a: Bytes, c: Bytes,
                      readValue: (Bytes, nat, int) -> Result<Value>, writeValue: Entry -> Bytes)
    requires |p.key| < U64 && 0 <= p.entry.kind <= 12 && ValueInverts(readValue, writeValue, p.entry)
    requires a == WriteString(p.key) && c == writeValue(p.entry)
    requires Has(data, pos, a) && Has(data, pos + |a|, WriteInt32(p.entry.kind)) && Has(data, pos + |a| + 4, c)
    ensures PairOf(data, pos, readValue) == Ok(p, pos + |a| + 4 + |c|)
  {
    ReadString(data, pos, p.key);
    ReadInt32(data, pos + |a|, p.entry.kind);
    PairIs(data, pos, p, readValue, pos + |a|, pos + |a| + 4 + |c|);
  }

  lemma ValuesInvert(e: Entry)
    requires EntryFits(e)
    ensures ValueInverts(ValueAt, WriteValue, e)
  {
    forall data: Bytes, pos: nat | Has(data, pos, WriteValue(e))
      ensures ValueAt(data, pos, e.kind) == Ok(e.value, pos + |WriteValue(e)|)
    {
      ReadValue(data, pos, e);
    }
  }

  lemma ReadPair(data: Bytes, pos: nat, p: Pair)
    requires PairFits(p) && Has(data, pos, WritePair(p))
    ensures PairAt(data, pos) == Ok(p, pos + |WritePair(p)|)
  {
    var a, c := WriteString(p.key), WriteValue(p.entry);
    Split3(data, pos, a, WriteInt32(p.entry.kind), c);
    EntryKind(p.entry);
    ValuesInvert(p.entry);
    ReadPairParts(data, pos, p, a, c, ValueAt, WriteValue);
  }

  lemma EntryKind(e: Entry)
    requires EntryFits(e)
    ensures 0 <= e.kind <= 12
  {
  }

  lemma ReadDims(data: Bytes, pos: nat, dims: seq<nat>)
    requires (forall d | d in dims :: d < U64) && Has(data, pos, WriteList(dims, U64Writer()))
    ensures ListAt(data, pos, |dims|, U64Reader()) == Ok(dims, pos + |WriteList(dims, U64Writer())|)
  {
    forall v | v in dims ensures Inverts(U64Reader(), U64Writer(), v) {
      Widths();
      forall d: Bytes, p: nat | Has(d, p, U64Writer()(v)) ensures U64Reader()(d, p) == Ok(v, p + |U64Writer()(v)|) {
        ReadUInt(d, p, v, 8);
      }
    }
    ReadList(data, pos, dims, U64Reader(), U64Writer());
  }

  lemma ReadTensorParts(data: Bytes, pos: nat, t: Tensor, a: Bytes, c: Bytes)
    requires TensorFits(t) && a == WriteString(t.name) && c == WriteList(t.dims, U64Writer())
    requires Has(data, pos, a) && Has(data, pos + |a|, ToLE(|t.dims|, 4)) && Has(data, pos + |a| + 4, c)
    requires Has(data, pos + |a| + 4 + |c|, WriteInt32(t.kind)) && Has(data, pos + |a| + 8 + |c|, ToLE(t.offset, 8))
    ensures TensorAt(data, pos) == Ok(t, pos + |a| + |c| + 16)
  {
    Widths();
    ReadString(data, pos, t.name);
    var p := pos + |a|;
    ReadUInt(data, p, |t.dims|, 4);
    ReadDims(data, p + 4, t.dims);
    var q := p + 4 + |c|;
    ReadInt32(data, q, t.kind);
    ReadUInt(data, q + 4, t.offset, 8);
    TensorIs(data, pos, t, p, q);
  }

  lemma TensorIs(data: Bytes, pos: nat, t: Tensor, p: nat, q: nat)
    requires StringAt(data, pos) == Ok(t.name, p) && UIntAt(data, p, 4) == Ok(|t.dims|, p + 4)
    requires ListAt(data, p + 4, |t.dims|, U64Reader()) == Ok(t.dims, q)
    requires Int32At(data, q) == Ok(t.kind, q + 4) && UIntAt(data, q + 4, 8) == Ok(t.offset, q + 12)
    ensures TensorAt(data, pos) == Ok(t, q + 12)
  {
  }

  lemma TensorSplits(data: Bytes, pos: nat, whole: Bytes, a: Bytes, n: Bytes, c: Bytes, k: Bytes, o: Bytes)
    requires whole == Cat5(a, n, c, k, o) && |n| == 4 && |k| == 4 && |o| == 8 && Has(data, pos, whole)
    ensures |whole| == |a| + |c| + 16
    ensures Has(data, pos, a) && Has(data, pos + |a|, n) && Has(data, pos + |a| + 4, c)
    ensures Has(data, pos + |a| + 4 + |c|, k) && Has(data, pos + |a| + 8 + |c|, o)
  {
    Split5(data, pos, a, n, c, k, o);
  }

  lemma ReadTensorWhole(data: Bytes, pos: nat, t: Tensor, whole: Bytes, a: Bytes, n: Bytes, c: Bytes, k: Bytes, o: Bytes)
    requires TensorFits(t) && whole == Cat5(a, n, c, k, o) && Has(data, pos, whole)
    requires a == WriteString(t.name) && n == ToLE(|t.dims|, 4) && c == WriteList(t.dims, U64Writer())
    requires k == WriteInt32(t.kind) && o == ToLE(t.offset, 8)
    ensures TensorAt(data, pos) == Ok(t, pos + |whole|)
  {
    TensorSplits(data, pos, whole, a, n, c, k, o);
    ReadTensorParts(data, pos, t, a, c);
  }

  lemma PartsOf(t: Tensor) returns (a: Bytes, n: Bytes, c: Bytes, k: Bytes, o: Bytes)
    ensures WriteTensor(t) == Cat5(a, n, c, k, o)
    ensures a == WriteString(t.name) && n == ToLE(|t.dims|, 4) && c == WriteList(t.dims, U64Writer())
    ensures k == WriteInt32(t.kind) && o == ToLE(t.offset, 8)
  {
    a, n, c, k, o := WriteString(t.name), ToLE(|t.dims|, 4), WriteList(t.dims, U64Writer()), WriteInt32(t.kind), ToLE(t.offset, 8);
  }

  lemma ReadTensor(data: Bytes, pos: nat, t: Tensor)
    requires TensorFits(t) && Has(data, pos, WriteTensor(t))
    ensures TensorAt(data, pos) == Ok(t, pos + |WriteTensor(t)|)
  {
    var a, n, c, k, o := PartsOf(t);
    ReadTensorWhole(data, pos, t, WriteTensor(t), a, n, c, k, o);
  }

  lemma PairInverts(p: Pair)
    requires PairFits(p)
    ensures Inverts(PairAt, WritePair, p)
  {
    forall d: Bytes, pos: nat | Has(d, pos, WritePair(p)) ensures PairAt(d, pos) == Ok(p, pos + |WritePair(p)|) {
      ReadPair(d, pos, p);
    }
  }

  lemma TensorInverts(t: Tensor)
    requires TensorFits(t)
    ensures Inverts(TensorAt, WriteTensor, t)
  {
    forall d: Bytes, pos: nat | Has(d, pos, WriteTensor(t)) ensures TensorAt(d, pos) == Ok(t, pos + |WriteTensor(t)|) {
      ReadTensor(d, pos, t);
    }
  }

  lemma HeaderIs(data: Bytes, h: Header, readPair: Reader<Pair>, readTensor: Reader<Tensor>, p: nat, end: nat)
    requires BytesAt(data, 0, 4) == Ok(MAGIC, 4) && UIntAt(data, 4, 4) == Ok(h.version, 8)
    requires UIntAt(data, 8, 8) == Ok(|h.tensors|, 16) && UIntAt(data, 16, 8) == Ok(|h.pairs|, 24)
    requires ListAt(data, 24, |h.pairs|, readPair) == Ok(h.pairs, p)
    requires ListAt(data, p, |h.tensors|, readTensor) == Ok(h.tensors, end)
    ensures HeaderOf(data, readPair, readTensor) == Ok(h, end)
  {
  }

  lemma HeaderParts(data: Bytes, fixed: Bytes, pairs: Bytes, tensors: Bytes, tail: Bytes)
    requires data == fixed + pairs + tensors + tail
    ensures Has(data, 0, fixed) && Has(data, |fixed|, pairs) && Has(data, |fixed| + |pairs|, tensors)
  {
    assert Has(data, 0, fixed + pairs + tensors);
    Split3(data, 0, fixed, pairs, tensors);
  }

  /** A header whose records read back reads back. */
  lemma HeaderReadsBack(h: Header, tail: Bytes, readPair: Reader<Pair>, writePair: Writer<Pair>,
                        readTensor: Reader<Tensor>, writeTensor: Writer<Tensor>)
    requires h.version < U32 && |h.pairs| < U64 && |h.tensors| < U64
    requires (forall p | p in h.pairs :: Inverts(readPair, writePair, p))
    requires (forall t | t in h.tensors :: Inverts(readTensor, writeTensor, t))
    ensures var whole := WriteHeaderOf(h, writePair, writeTensor);
            HeaderOf(whole + tail, readPair, readTensor) == Ok(h, |whole|)
  {
    var data := WriteHeaderOf(h, writePair, writeTensor) + tail;
    var pairs, tensors := WriteList(h.pairs, writePair), WriteList(h.tensors, writeTensor);
    var fixed := Fixed(h);
    HeaderParts(data, fixed, pairs, tensors, tail);
    ReadFixed(data, h, fixed);
    ReadList(data, 24, h.pairs, readPair, writePair);
    ReadList(data, 24 + |pairs|, h.tensors, readTensor, writeTensor);
    HeaderIs(data, h, readPair, readTensor, 24 + |pairs|, 24 + |pairs| + |tensors|);
  }

  /** Main result: whatever bytes follow, reading a written header gives it back and
      stops right behind it. */
  lemma HeaderRoundTrip(h: Header, tail: Bytes)
    requires HeaderFits(h)
    ensures HeaderAt(WriteHeader(h) + tail) == Ok(h, |WriteHeader(h)|)
  {
    forall p | p in h.pairs ensures Inverts(PairAt, WritePair, p) {
      PairInverts(p);
    }
    forall t | t in h.tensors ensures Inverts(TensorAt, WriteTensor, t) {
      TensorInverts(t);
    }
    HeaderReadsBack(h, tail, PairAt, WritePair, TensorAt, WriteTensor);
  }

  lemma ReadFixed(data: Bytes, h: Header, fixed: Bytes)
    requires h.version < U32 && |h.pairs| < U64 && |h.tensors| < U64
    requires fixed == Fixed(h) && Has(data, 0, fixed)
    ensures |fixed| == 24 && BytesAt(data, 0, 4) == Ok(MAGIC, 4) && UIntAt(data, 4, 4) == Ok(h.version, 8)
    ensures UIntAt(data, 8, 8) == Ok(|h.tensors|, 16) && UIntAt(data, 16, 8) == Ok(|h.pairs|, 24)
  {
    var a, b, c := ToLE(h.version, 4), ToLE(|h.tensors|, 8), ToLE(|h.pairs|, 8);
    Widths();
    Split(data, 0, MAGIC + a + b, c);
    Split3(data, 0, MAGIC, a, b);
    Slice(data, 0, MAGIC);
    ReadUInt(data, 4, h.version, 4);
    ReadUInt(data, 8, |h.tensors|, 8);
    ReadUInt(data, 16, |h.pairs|, 8);
  }

  /** An unsigned 64-bit value comes back as itself if and only if it fits an int64. */
  lemma U64RoundTripIff(data: Bytes, pos: nat, v: nat)
    requires v < U64 && Has(data, pos, ToLE(v, 8))
    ensures ScalarAt(data, pos, 10) == Ok(Int(v), pos + 8) <==> v <= I64_MAX
  {
    Widths();
    ReadUInt(data, pos, v, 8);
  }

  // ----- what follows does not matter -----

  /** A read that succeeds stays inside the file, and gives the same with more bytes
      behind it. */
  ghost predicate Local<T(!new)>(read: Reader<T>) {
    && (forall data: Bytes, pos: nat | read(data, pos).Ok? && pos <= |data| :: read(data, pos).pos <= |data|)
    && forall data: Bytes, more: Bytes, pos: nat | read(data, pos).Ok? :: Unmoved(read, data, more, pos)
  }

  ghost predicate Unmoved<T(!new)>(read: Reader<T>, data: Bytes, more: Bytes, pos: nat) {
    read(data + more, pos) == read(data, pos)
  }

  lemma {:induction false} LocalList<T(!new)>(data: Bytes, more: Bytes, pos: nat, count: nat, read: Reader<T>)
    requires Local(read) && ListAt(data, pos, count, read).Ok?
    ensures ListAt(data + more, pos, count, read) == ListAt(data, pos, count, read)
    ensures pos <= |data| ==> ListAt(data, pos, count, read).pos <= |data|
    decreases count
  {
    if count > 0 {
      LocalList(data, more, pos, count - 1, read);
      assert Unmoved(read, data, more, ListAt(data, pos, count - 1, read).pos);
    }
  }

  lemma LongerUInt(data: Bytes, more: Bytes, pos: nat, n: nat)
    requires UIntAt(data, pos, n).Ok?
    ensures UIntAt(data + more, pos, n) == UIntAt(data, pos, n)
  {
    assert (data + more)[pos..pos + n] == data[pos..pos + n];
  }

  lemma LongerString(data: Bytes, more: Bytes, pos: nat)
    requires StringAt(data, pos).Ok?
    ensures StringAt(data + more, pos) == StringAt(data, pos)
  {
    LongerUInt(data, more, pos, 8);
    var n := UIntAt(data, pos, 8).value;
    assert (data + more)[pos + 8..pos + 8 + n] == data[pos + 8..pos + 8 + n];
  }

  lemma LongerScalar(data: Bytes, more: Bytes, pos: nat, kind: int)
    requires ScalarAt(data, pos, kind).Ok?
    ensures ScalarAt(data + more, pos, kind) == ScalarAt(data, pos, kind)
  {
    if kind == STRING {
      LongerString(data, more, pos);
    } else {
      LongerUInt(data, more, pos, Width(kind));
    }
  }

  lemma ScalarsLocal(item: int)
    ensures Local(ScalarReader(item))
  {
    forall data: Bytes, more: Bytes, pos: nat | ScalarReader(item)(data, pos).Ok?
      ensures Unmoved(ScalarReader(item), data, more, pos)
    {
      LongerScalar(data, more, pos, item);
    }
  }

  lemma DimsLocal()
    ensures Local(U64Reader())
  {
    forall data: Bytes, more: Bytes, pos: nat | U64Reader()(data, pos).Ok? ensures Unmoved(U64Reader(), data, more, pos) {
      LongerUInt(data, more, pos, 8);
    }
  }

  lemma LongerValue(data: Bytes, more: Bytes, pos: nat, kind: int)
    requires ValueAt(data, pos, kind).Ok?
    ensures ValueAt(data + more, pos, kind) == ValueAt(data, pos, kind)
    ensures pos <= |data| ==> ValueAt(data, pos, kind).pos <= |data|
  {
    if kind == ARRAY {
      LongerUInt(data, more, pos, 4);
      LongerUInt(data, more, pos + 4, 8);
      var item, count := Int32At(data, pos).value, UIntAt(data, pos + 4, 8).value;
      ScalarsLocal(item);
      LocalList(data, more, pos + 12, count, ScalarReader(item));
    } else {
      LongerScalar(data, more, pos, kind);
    }
  }

  lemma LongerPair(data: Bytes, more: Bytes, pos: nat)
    requires PairAt(data, pos).Ok?
    ensures PairAt(data + more, pos) == PairAt(data, pos) && PairAt(data, pos).pos <= |data|
  {
    LongerString(data, more, pos);
    var p := StringAt(data, pos).pos;
    LongerUInt(data, more, p, 4);
    LongerValue(data, more, p + 4, Int32At(data, p).value);
  }

  lemma LongerTensor(data: Bytes, more: Bytes, pos: nat)
    requires TensorAt(data, pos).Ok?
    ensures TensorAt(data + more, pos) == TensorAt(data, pos) && TensorAt(data, pos).pos <= |data|
  {
    LongerString(data, more, pos);
    var p := StringAt(data, pos).pos;
    LongerUInt(data, more, p, 4);
    var n := UIntAt(data, p, 4).value;
    DimsLocal();
    LocalList(data, more, p + 4, n, U64Reader());
    var t := ListAt(data, p + 4, n, U64Reader()).pos;
    LongerUInt(data, more, t, 4);
    LongerUInt(data, more, t + 4, 8);
  }

  lemma RecordsLocal()
    ensures Local(PairAt) && Local(TensorAt)
  {
    forall data: Bytes, more: Bytes, pos: nat | PairAt(data, pos).Ok?
      ensures Unmoved(PairAt, data, more, pos) && PairAt(data, pos).pos <= |data|
    {
      LongerPair(data, more, pos);
    }
    forall data: Bytes, pos: nat | PairAt(data, pos).Ok? ensures PairAt(data, pos).pos <= |data| {
      LongerPair(data, [], pos);
    }
    forall data: Bytes, more: Bytes, pos: nat | TensorAt(data, pos).Ok?
      ensures Unmoved(TensorAt, data, more, pos) && TensorAt(data, pos).pos <= |data|
    {
      LongerTensor(data, more, pos);
    }
    forall data: Bytes, pos: nat | TensorAt(data, pos).Ok? ensures TensorAt(data, pos).pos <= |data| {
      LongerTensor(data, [], pos);
    }
  }

  /** A header that parses ends inside the file, and still parses, to the same thing,
      with bytes behind it. */
  lemma LongerHeader(data: Bytes, more: Bytes, readPair: Reader<Pair>, readTensor: Reader<Tensor>)
    requires Local(readPair) && Local(readTensor) && HeaderOf(data, readPair, readTensor).Ok?
    ensures HeaderOf(data + more, readPair, readTensor) == HeaderOf(data, readPair, readTensor)
    ensures HeaderOf(data, readPair, readTensor).pos <= |data|
  {
    assert (data + more)[0..4] == data[0..4];
    LongerUInt(data, more, 4, 4);
    LongerUInt(data, more, 8, 8);
    LongerUInt(data, more, 16, 8);
    var n := UIntAt(data, 16, 8).value;
    LocalList(data, more, 24, n, readPair);
    LocalList(data, more, ListAt(data, 24, n, readPair).pos, UIntAt(data, 8, 8).value, readTensor);
  }

  lemma CutFails(whole: Bytes, cut: nat, readPair: Reader<Pair>, readTensor: Reader<Tensor>)
    requires Local(readPair) && Local(readTensor) && HeaderOf(whole, readPair, readTensor).Ok?
    requires HeaderOf(whole, readPair, readTensor).pos == |whole| && cut < |whole|
    ensures HeaderOf(whole[..cut], readPair, readTensor) == Fail
  {
    var data := whole[..cut];
    assert data + whole[cut..] == whole;
    if HeaderOf(data, readPair, readTensor).Ok? {
      LongerHeader(data, whole[cut..], readPair, readTensor);
    }
  }

  /** Main result: cut anywhere, a header does not parse. */
  lemma TruncatedFails(h: Header, cut: nat)
    requires HeaderFits(h) && cut < |WriteHeader(h)|
    ensures HeaderAt(WriteHeader(h)[..cut]) == Fail
  {
    HeaderRoundTrip(h, []);
    assert WriteHeader(h) + [] == WriteHeader(h);
    RecordsLocal();
    CutFails(WriteHeader(h), cut, PairAt, TensorAt);
  }
}
