/** The layout of the header, byte by byte: what each metadata type, tensor record and
    fixed field is read from. */
module GgufMeaning {
  import opened GgufFormat

  function Word16(data: Bytes, at: nat): nat
    requires at + 2 <= |data|
  {
    data[at] as int + 0x100 * data[at + 1] as int
  }

  function Word32(data: Bytes, at: nat): nat
    requires at + 4 <= |data|
  {
    Word16(data, at) + 0x1_0000 * Word16(data, at + 2)
  }

  function Word64(data: Bytes, at: nat): nat
    requires at + 8 <= |data|
  {
    Word32(data, at) + 0x1_0000_0000 * Word32(data, at + 4)
  }

  lemma {:induction false} LESplits(a: Bytes, b: Bytes)
    ensures FromLE(a + b) == FromLE(a) + Pow256(|a|) * FromLE(b)
    decreases |a|
  {
    if a == [] {
      assert a + b == b;
    } else {
      LESplits(a[1..], b);
      assert (a + b)[1..] == a[1..] + b;
      Product256(Pow256(|a| - 1), FromLE(b));
    }
  }

  lemma Product256(p: nat, v: nat)
    ensures 256 * (p * v) == (256 * p) * v
  {
  }

  lemma Pair16(b: Bytes)
    requires |b| == 2
    ensures FromLE(b) == b[0] as int + 0x100 * b[1] as int
  {
    assert b[1..][1..] == [];
  }

  lemma Slice16(data: Bytes, at: nat)
    requires at + 2 <= |data|
    ensures FromLE(data[at..at + 2]) == Word16(data, at)
  {
    Pair16(data[at..at + 2]);
  }

  lemma Slice32(data: Bytes, at: nat)
    requires at + 4 <= |data|
    ensures FromLE(data[at..at + 4]) == Word32(data, at)
  {
    Slice16(data, at);
    Slice16(data, at + 2);
    Widths();
    LESplits(data[at..at + 2], data[at + 2..at + 4]);
    assert data[at..at + 4] == data[at..at + 2] + data[at + 2..at + 4];
  }

  lemma Slice64(data: Bytes, at: nat)
    requires at + 8 <= |data|
    ensures FromLE(data[at..at + 8]) == Word64(data, at)
  {
    Slice32(data, at);
    Slice32(data, at + 4);
    Widths();
    LESplits(data[at..at + 4], data[at + 4..at + 8]);
    assert data[at..at + 8] == data[at..at + 4] + data[at + 4..at + 8];
  }

  lemma Slice8(data: Bytes, at: nat)
    requires at + 1 <= |data|
    ensures FromLE(data[at..at + 1]) == data[at]
  {
    assert data[at..at + 1][1..] == [];
  }

  /** Main result: the one- and two-byte types. */
  lemma NarrowTypes(data: Bytes, at: nat)
    ensures at + 1 <= |data| ==>
              && ScalarAt(data, at, 0) == Ok(Int(data[at]), at + 1)
              && ScalarAt(data, at, 1) == Ok(Int(if data[at] < 0x80 then data[at] else data[at] as int - 0x100), at + 1)
              && ScalarAt(data, at, 7) == Ok(Bool(data[at] != 0), at + 1)
    ensures at + 2 <= |data| ==>
              var v := Word16(data, at);
              && ScalarAt(data, at, 2) == Ok(Int(v), at + 2)
              && ScalarAt(data, at, 3) == Ok(Int(if v < 0x8000 then v else v - 0x1_0000), at + 2)
    ensures forall kind | kind in {0, 1, 7} && at + 1 > |data| :: ScalarAt(data, at, kind) == Fail
    ensures forall kind | kind in {2, 3} && at + 2 > |data| :: ScalarAt(data, at, kind) == Fail
  {
    Widths();
    if at + 1 <= |data| { Slice8(data, at); }
    if at + 2 <= |data| { Slice16(data, at); }
  }

  /** Main result: the four-byte types; a float is its bits. */
  lemma FourByteTypes(data: Bytes, at: nat)
    ensures at + 4 <= |data| ==>
              var v := Word32(data, at);
              && ScalarAt(data, at, 4) == Ok(Int(v), at + 4)
              && ScalarAt(data, at, 5) == Ok(Int(if v < 0x8000_0000 then v else v - 0x1_0000_0000), at + 4)
              && ScalarAt(data, at, 6) == Ok(F32(v), at + 4)
    ensures forall kind | kind in {4, 5, 6} && at + 4 > |data| :: ScalarAt(data, at, kind) == Fail
  {
    Widths();
    if at + 4 <= |data| { Slice32(data, at); }
  }

  /** Main result: the eight-byte types -- the unsigned one is kept as an int64 too -- and
      what no reader accepts. */
  lemma EightByteTypes(data: Bytes, at: nat, kind: int)
    ensures at + 8 <= |data| ==>
              var v := Word64(data, at);
              var i := if v < 0x8000_0000_0000_0000 then v else v - 0x1_0000_0000_0000_0000;
              && ScalarAt(data, at, 10) == Ok(Int(i), at + 8)
              && ScalarAt(data, at, 11) == Ok(Int(i), at + 8)
              && ScalarAt(data, at, 12) == Ok(F64(v), at + 8)
    ensures kind in {8, 10, 11, 12} && at + 8 > |data| ==> ScalarAt(data, at, kind) == Fail
    ensures kind == 9 || kind < 0 || kind > 12 ==> ScalarAt(data, at, kind) == Fail
  {
    Widths();
    if at + 8 <= |data| { Slice64(data, at); }
  }

  /** Main result: a string is its 64-bit length and that many bytes. */
  lemma StringMeans(data: Bytes, at: nat)
    ensures at + 8 <= |data| && at + 8 + Word64(data, at) <= |data| ==>
              var end := at + 8 + Word64(data, at);
              StringAt(data, at) == Ok(data[at + 8..end], end) && ScalarAt(data, at, 8) == Ok(Str(data[at + 8..end]), end)
    ensures at + 8 > |data| || at + 8 + Word64(data, at) > |data| ==> StringAt(data, at) == Fail
  {
    if at + 8 <= |data| { Slice64(data, at); }
  }

  lemma Read32(data: Bytes, at: nat)
    ensures UIntAt(data, at, 4) == if at + 4 <= |data| then Ok(Word32(data, at), at + 4) else Fail
  {
    if at + 4 <= |data| { Slice32(data, at); }
  }

  lemma Read64(data: Bytes, at: nat)
    ensures UIntAt(data, at, 8) == if at + 8 <= |data| then Ok(Word64(data, at), at + 8) else Fail
  {
    if at + 8 <= |data| { Slice64(data, at); }
  }

  lemma ReadSigned32(data: Bytes, at: nat)
    ensures Int32At(data, at) == if at + 4 <= |data| then Ok(Signed32(data, at), at + 4) else Fail
  {
    Widths();
    Read32(data, at);
  }

  /** The dimensions are 64-bit words one after the other. */
  lemma {:induction false} DimsMean(data: Bytes, at: nat, count: nat, i: nat)
    ensures var r := ListAt(data, at, count, U64Reader());
            r.Ok? ==> r.pos == at + 8 * count && (count > 0 ==> r.pos <= |data|)
                      && (i < count ==> r.value[i] == Word64(data, at + 8 * i))
  {
    if count > 0 {
      DimsMean(data, at, count - 1, i);
      Read64(data, at + 8 * (count - 1));
      assert U64Reader()(data, at + 8 * (count - 1)) == UIntAt(data, at + 8 * (count - 1), 8);
    }
  }

  function Signed32(data: Bytes, at: nat): int
    requires at + 4 <= |data|
  {
    var v := Word32(data, at);
    if v < 0x8000_0000 then v else v - 0x1_0000_0000
  }

  /** The reads a record is made of, each where the one before stopped. */
  ghost predicate TensorParts(data: Bytes, at: nat, t: Tensor, end: nat, dims: nat, tail: nat, stop: nat) {
    && StringAt(data, at) == Ok(t.name, end)
    && UIntAt(data, end, 4) == Ok(|t.dims|, dims)
    && ListAt(data, dims, |t.dims|, U64Reader()) == Ok(t.dims, tail)
    && Int32At(data, tail) == Ok(t.kind, tail + 4)
    && UIntAt(data, tail + 4, 8) == Ok(t.offset, stop)
  }

  lemma TensorHasParts(data: Bytes, at: nat) returns (end: nat, dims: nat, tail: nat)
    ensures var r := TensorAt(data, at); r.Ok? ==> TensorParts(data, at, r.value, end, dims, tail, r.pos)
  {
    end, dims, tail := 0, 0, 0;
    var name := StringAt(data, at);
    if name.Ok? {
      end := name.pos;
      var n := UIntAt(data, end, 4);
      if n.Ok? {
        dims := n.pos;
        var list := ListAt(data, dims, n.value, U64Reader());
        if list.Ok? { tail := list.pos; }
      }
    }
  }

  lemma StringRead(data: Bytes, at: nat, s: Bytes, end: nat)
    requires StringAt(data, at) == Ok(s, end)
    ensures end == at + 8 + |s| <= |data| && |s| == Word64(data, at) && s == data[at + 8..end]
  {
    StringMeans(data, at);
  }

  /** Main result: a tensor record is a string, a 32-bit count, that many 64-bit dimensions,
      a signed 32-bit type and a 64-bit offset, one behind the other. */
  lemma TensorMeans(data: Bytes, at: nat, i: nat)
    ensures var r := TensorAt(data, at); r.Ok? ==> TensorLayout(data, at, r.value, r.pos, i)
  {
    var r := TensorAt(data, at);
    var end, dims, tail := TensorHasParts(data, at);
    if r.Ok? { PartsLaidOut(data, at, r.value, end, dims, tail, r.pos, i); }
  }

  /** Where the parts of a record lie, and what is read there. */
  ghost predicate TensorLayout(data: Bytes, at: nat, t: Tensor, stop: nat, i: nat) {
    var end := at + 8 + |t.name|;
    var tail := end + 4 + 8 * |t.dims|;
    && stop == tail + 12 <= |data|
    && |t.name| == Word64(data, at) && t.name == data[at + 8..end]
    && |t.dims| == Word32(data, end)
    && (i < |t.dims| ==> t.dims[i] == Word64(data, end + 4 + 8 * i))
    && t.kind == Signed32(data, tail) && t.offset == Word64(data, tail + 4)
  }

  lemma FrontLaidOut(data: Bytes, at: nat, t: Tensor, end: nat, dims: nat, tail: nat, stop: nat)
    requires TensorParts(data, at, t, end, dims, tail, stop)
    ensures end == at + 8 + |t.name| <= |data| && |t.name| == Word64(data, at) && t.name == data[at + 8..end]
    ensures dims == end + 4 <= |data| && |t.dims| == Word32(data, end)
  {
    StringRead(data, at, t.name, end);
    Read32(data, end);
  }

  lemma BackLaidOut(data: Bytes, at: nat, t: Tensor, end: nat, dims: nat, tail: nat, stop: nat, i: nat)
    requires TensorParts(data, at, t, end, dims, tail, stop)
    ensures tail == dims + 8 * |t.dims| && stop == tail + 12 <= |data|
    ensures i < |t.dims| ==> t.dims[i] == Word64(data, dims + 8 * i)
    ensures t.kind == Signed32(data, tail) && t.offset == Word64(data, tail + 4)
  {
    DimsMean(data, dims, |t.dims|, i);
    ReadSigned32(data, tail);
    Read64(data, tail + 4);
  }

  lemma PartsLaidOut(data: Bytes, at: nat, t: Tensor, end: nat, dims: nat, tail: nat, stop: nat, i: nat)
    requires TensorParts(data, at, t, end, dims, tail, stop)
    ensures TensorLayout(data, at, t, stop, i)
  {
    FrontLaidOut(data, at, t, end, dims, tail, stop);
    BackLaidOut(data, at, t, end, dims, tail, stop, i);
  }

  /** Main result: a metadata record is its key, a signed 32-bit type and the value behind
      them. */
  lemma PairMeans(data: Bytes, at: nat)
    ensures var r := PairAt(data, at); r.Ok? ==> PairLayout(data, at, r.value, r.pos)
  {
    var r := PairAt(data, at);
    if r.Ok? { PairLaidOut(data, at, r.value, StringAt(data, at).pos, r.pos); }
  }

  lemma PairLaidOut(data: Bytes, at: nat, p: Pair, end: nat, stop: nat)
    requires StringAt(data, at) == Ok(p.key, end) && Int32At(data, end) == Ok(p.entry.kind, end + 4)
    requires ValueAt(data, end + 4, p.entry.kind) == Ok(p.entry.value, stop)
    ensures PairLayout(data, at, p, stop)
  {
    StringRead(data, at, p.key, end);
    ReadSigned32(data, end);
  }

  ghost predicate PairLayout(data: Bytes, at: nat, p: Pair, stop: nat) {
    var end := at + 8 + |p.key|;
    && end + 4 <= |data| && |p.key| == Word64(data, at) && p.key == data[at + 8..end]
    && p.entry.kind == Signed32(data, end)
    && ValueAt(data, end + 4, p.entry.kind) == Ok(p.entry.value, stop)
  }

  /** Main result: a value of type 9 is an array -- a signed 32-bit item type, a 64-bit
      count, and the items -- and any other is one scalar. */
  lemma ValueMeans(data: Bytes, at: nat, kind: int)
    ensures var r := ValueAt(data, at, kind);
            r.Ok? && kind == 9 ==>
              && r.value.Many? && at + 12 <= |data| && r.value.item == Signed32(data, at)
              && |r.value.elems| == Word64(data, at + 4)
              && ListAt(data, at + 12, |r.value.elems|, ScalarReader(r.value.item)) == Ok(r.value.elems, r.pos)
    ensures var s := ScalarAt(data, at, kind);
            kind != 9 ==> ValueAt(data, at, kind) == if s.Ok? then Ok(One(s.value), s.pos) else Fail
  {
    ReadSigned32(data, at);
    Read64(data, at + 4);
  }

  /** Main result: an accepted header opens with the bytes of "GGUF", a 32-bit version, the
      number of tensors and the number of metadata records, in this order. */
  lemma HeaderMeans(data: Bytes)
    ensures var r := HeaderAt(data);
            r.Ok? ==>
              && 24 <= |data| && data[0] == 'G' as int && data[1] == 'G' as int && data[2] == 'U' as int && data[3] == 'F' as int
              && r.value.version == Word32(data, 4)
              && |r.value.tensors| == Word64(data, 8) && |r.value.pairs| == Word64(data, 16)
  {
    var r := HeaderAt(data);
    if r.Ok? {
      var magic := BytesAt(data, 0, 4);
      assert data[0] == magic.value[0] && data[1] == magic.value[1] && data[2] == magic.value[2] && data[3] == magic.value[3];
      Slice32(data, 4);
      Slice64(data, 8);
      Slice64(data, 16);
    }
  }
}
