/** The reader itself: a bounds-checked cursor, the parse loop, and the directory it
    builds. */
module GgufReader {
  import opened Arith
  import opened GgufFormat
  import opened GgufRoundTrip

  datatype Outcome<T> = Got(value: T) | Error

  /** The cursor and the position-based specification agree. */
  ghost predicate Agrees<T>(r: Outcome<T>, pos: nat, spec: Result<T>) {
    match spec
    case Ok(v, p) => r == Got(v) && pos == p
    case Fail => r == Error
  }

  class Cursor {
    const data: Bytes
    var pos: nat

    constructor (data: Bytes)
      ensures this.data == data && pos == 0
    {
      this.data, pos := data, 0;
    }

    method Read(n: nat) returns (r: Outcome<Bytes>)
      modifies this
      ensures Agrees(r, pos, BytesAt(data, old(pos), n))
    {
      if pos + n > |data| {
        return Error;
      }
      r := Got(data[pos..pos + n]);
      pos := pos + n;
    }

    method ReadUInt(n: nat) returns (r: Outcome<nat>)
      modifies this
      ensures Agrees(r, pos, UIntAt(data, old(pos), n))
    {
      var b := Read(n);
      if b.Error? {
        return Error;
      }
      r := Got(FromLE(b.value));
    }

    method ReadInt32() returns (r: Outcome<int>)
      modifies this
      ensures Agrees(r, pos, Int32At(data, old(pos)))
    {
      Widths();
      var v := ReadUInt(4);
      if v.Error? {
        return Error;
      }
      r := Got(AsInt32(v.value));
    }

    method ReadString() returns (r: Outcome<Bytes>)
      modifies this
      ensures Agrees(r, pos, StringAt(data, old(pos)))
    {
      var n := ReadUInt(8);
      if n.Error? {
        return Error;
      }
      r := Read(n.value);
    }

    method ReadScalar(kind: int) returns (r: Outcome<Scalar>)
      modifies this
      ensures Agrees(r, pos, ScalarAt(data, old(pos), kind))
    {
      if kind == STRING {
        var s := ReadString();
        return if s.Got? then Got(Str(s.value)) else Error;
      }
      if !IsScalar(kind) {
        return Error;
      }
      var v := ReadUInt(Width(kind));
      return if v.Got? then Got(Decode(kind, v.value)) else Error;
    }

    method ReadArray(item: int, length: nat) returns (r: Outcome<Value>)
      modifies this
      ensures Agrees(r, pos, ArrayAt(data, old(pos), item, length))
    {
      if item == ARRAY {
        return Error;
      }
      var elems: seq<Scalar> := [];
      for i := 0 to length
        invariant ListAt(data, old(pos), i, ScalarReader(item)) == Ok(elems, pos)
      {
        var e := ReadScalar(item);
        if e.Error? {
          FailSticks(data, old(pos), i + 1, length, ScalarReader(item));
          return Error;
        }
        elems := elems + [e.value];
      }
      r := Got(Many(item, elems));
    }

    method ReadValue(kind: int) returns (r: Outcome<Value>)
      modifies this
      ensures Agrees(r, pos, ValueAt(data, old(pos), kind))
    {
      if kind == ARRAY {
        var item := ReadInt32();
        if item.Error? {
          return Error;
        }
        var length := ReadUInt(8);
        if length.Error? {
          return Error;
        }
        r := ReadArray(item.value, length.value);
      } else {
        var s := ReadScalar(kind);
        r := if s.Got? then Got(One(s.value)) else Error;
      }
    }

    method ReadPair() returns (r: Outcome<Pair>)
      modifies this
      ensures Agrees(r, pos, PairAt(data, old(pos)))
    {
      var key := ReadString();
      if key.Error? {
        return Error;
      }
      var kind := ReadInt32();
      if kind.Error? {
        return Error;
      }
      var value := ReadValue(kind.value);
      if value.Error? {
        return Error;
      }
      r := Got(Pair(key.value, Entry(kind.value, value.value)));
    }

    method ReadDims(n: nat) returns (r: Outcome<seq<nat>>)
      modifies this
      ensures Agrees(r, pos, ListAt(data, old(pos), n, U64Reader()))
    {
      var dims: seq<nat> := [];
      for i := 0 to n
        invariant ListAt(data, old(pos), i, U64Reader()) == Ok(dims, pos)
      {
        var d := ReadUInt(8);
        if d.Error? {
          FailSticks(data, old(pos), i + 1, n, U64Reader());
          return Error;
        }
        dims := dims + [d.value];
      }
      r := Got(dims);
    }

    method ReadTensor() returns (r: Outcome<Tensor>)
      modifies this
      ensures Agrees(r, pos, TensorAt(data, old(pos)))
    {
      var name := ReadString();
      if name.Error? {
        return Error;
      }
      var nDims := ReadUInt(4);
      if nDims.Error? {
        return Error;
      }
      var dims := ReadDims(nDims.value);
      if dims.Error? {
        return Error;
      }
      var kind := ReadInt32();
      if kind.Error? {
        return Error;
      }
      var offset := ReadUInt(8);
      if offset.Error? {
        return Error;
      }
      r := Got(Tensor(name.value, dims.value, kind.value, offset.value));
    }
  }

  /** Once an item cannot be read, no longer list can. */
  lemma {:induction false} FailSticks<T>(data: Bytes, pos: nat, i: nat, count: nat, read: Reader<T>)
    requires i <= count && ListAt(data, pos, i, read) == Fail
    ensures ListAt(data, pos, count, read) == Fail
    decreases count
  {
    if i < count { FailSticks(data, pos, i, count - 1, read); }
  }

  // ----- the directory -----

  /** Elements and bytes per block of a tensor type; no elements when it is unknown. */
  datatype Geometry = Geometry(elems: nat, bytes: nat)

  datatype Info = Info(name: Bytes, dims: seq<nat>, kind: int, offset: nat, absolute: nat, nbytes: nat, known: bool)

  datatype Directory = Directory(version: nat, metadata: map<Bytes, Entry>, tensors: seq<Info>, index: map<Bytes, nat>,
                                 alignment: nat, dataStart: nat)

  /** The metadata map: a repeated key keeps its last entry. */
  function ToMap(pairs: seq<Pair>): map<Bytes, Entry> {
    if pairs == [] then map[] else ToMap(pairs[..|pairs| - 1])[pairs[|pairs| - 1].key := pairs[|pairs| - 1].entry]
  }

  lemma {:induction false} LastWins(pairs: seq<Pair>, k: nat)
    requires k < |pairs| && forall j | k < j < |pairs| :: pairs[j].key != pairs[k].key
    ensures pairs[k].key in ToMap(pairs) && ToMap(pairs)[pairs[k].key] == pairs[k].entry
    decreases |pairs|
  {
    if k < |pairs| - 1 { LastWins(pairs[..|pairs| - 1], k); }
  }

  lemma {:induction false} OnlyKeys(pairs: seq<Pair>, key: Bytes)
    requires key in ToMap(pairs)
    ensures exists k | 0 <= k < |pairs| :: pairs[k].key == key
    decreases |pairs|
  {
    var n := |pairs| - 1;
    if key != pairs[n].key {
      OnlyKeys(pairs[..n], key);
      var k :| 0 <= k < n && pairs[..n][k].key == key;
      assert pairs[k].key == key;
    }
  }

  function IndexOf(tensors: seq<Tensor>): map<Bytes, nat> {
    if tensors == [] then map[] else IndexOf(tensors[..|tensors| - 1])[tensors[|tensors| - 1].name := |tensors| - 1]
  }

  lemma {:induction false} LastNamed(tensors: seq<Tensor>, k: nat)
    requires k < |tensors| && forall j | k < j < |tensors| :: tensors[j].name != tensors[k].name
    ensures tensors[k].name in IndexOf(tensors) && IndexOf(tensors)[tensors[k].name] == k
    decreases |tensors|
  {
    if k < |tensors| - 1 { LastNamed(tensors[..|tensors| - 1], k); }
  }

  // "general.alignment"
  const ALIGNMENT_KEY: Bytes := [103, 101, 110, 101, 114, 97, 108, 46, 97, 108, 105, 103, 110, 109, 101, 110, 116]

  /** 32 unless the file says otherwise with an integer; zero counts as one. */
  function AlignmentOf(metadata: map<Bytes, Entry>): (a: nat)
    ensures 1 <= a < U64
  {
    var a := if ALIGNMENT_KEY in metadata && metadata[ALIGNMENT_KEY].value.One? && metadata[ALIGNMENT_KEY].value.scalar.Int?
             then metadata[ALIGNMENT_KEY].value.scalar.i % U64 else 32;
    if a == 0 then 1 else a
  }

  /** `align_up`, in 64-bit arithmetic. */
  function AlignUp(value: nat, alignment: nat): (r: nat) {
    if alignment == 0 then value
    else
      MulSign((value + alignment - 1) % U64 / alignment, alignment);
      DivIff((value + alignment - 1) % U64, alignment, 0);
      (value + alignment - 1) % U64 / alignment * alignment
  }

  /** The least multiple of `alignment` at or after `value`. */
  ghost predicate LeastAligned(r: nat, value: nat, alignment: nat) {
    alignment >= 1 && value <= r && (exists k: nat :: r == k * alignment)
    && forall k: nat :: k * alignment >= value ==> k * alignment >= r
  }

  /** An offset that the rounding-up wraps to less than one alignment goes to 0. */
  lemma AlignBelow(value: nat, alignment: nat)
    requires 1 <= value < U64 && 1 <= alignment < U64 && value + alignment - 1 >= U64
    ensures AlignUp(value, alignment) == 0
  {
    var sum := value + alignment - 1;
    DivIs(sum - U64, alignment, 0, sum - U64);
    assert sum % U64 == sum - U64;
  }

  /** Main result: the data section starts at the least aligned offset behind the header
      if and only if the addition inside `align_up` does not wrap. */
  lemma AlignUpIff(value: nat, alignment: nat)
    requires value < U64 && 1 <= alignment < U64
    ensures LeastAligned(AlignUp(value, alignment), value, alignment) <==> value + alignment - 1 < U64
  {
    var sum := value + alignment - 1;
    if sum < U64 {
      var k := sum / alignment;
      DivMod(sum, alignment);
      DivIff(sum, alignment, 0);
      assert AlignUp(value, alignment) == k * alignment;
      forall j: nat | j * alignment >= value ensures j * alignment >= k * alignment {
        DivIff(sum, alignment, j);
        MulMono(k, j, alignment);
        assert j * alignment + alignment > sum;
      }
    } else {
      AlignBelow(value, alignment);
    }
  }

  /** `elements *= dim`, in 64-bit arithmetic. */
  function Elements(dims: seq<nat>): nat {
    if dims == [] then 1 else Elements(dims[..|dims| - 1]) * dims[|dims| - 1] % U64
  }

  function BlockCount(elements: nat, elems: nat): nat
    requires elems >= 1
  {
    DivIff((elements + elems - 1) % U64, elems, 0);
    (elements + elems - 1) % U64 / elems
  }

  function Bytes64(elements: nat, g: Geometry): nat
    requires g.elems >= 1
  {
    BlockCount(elements, g.elems) * g.bytes % U64
  }

  function NBytes(t: Tensor, geometry: int -> Geometry): nat {
    if geometry(t.kind).elems == 0 then 0 else Bytes64(Elements(t.dims), geometry(t.kind))
  }

  function Product(dims: seq<nat>): nat {
    if dims == [] then 1
    else
      MulSign(Product(dims[..|dims| - 1]), dims[|dims| - 1]);
      Product(dims[..|dims| - 1]) * dims[|dims| - 1]
  }

  lemma {:induction false} ElementsModulo(dims: seq<nat>)
    ensures Elements(dims) == Product(dims) % U64
    decreases |dims|
  {
    if dims != [] {
      ElementsModulo(dims[..|dims| - 1]);
      var p, d := Product(dims[..|dims| - 1]), dims[|dims| - 1];
      DivMod(p, U64);
      assert p * d == (p % U64) * d + (p / U64 * d) * U64;
      ModShift((p % U64) * d, U64, p / U64 * d);
    }
  }

  /** The number of whole blocks of `e` elements that hold `n`, and no fewer. */
  lemma WholeBlocks(n: nat, e: nat)
    requires e >= 1
    ensures var blocks := (n + e - 1) / e; 0 <= blocks && blocks * e >= n && forall k: nat :: k * e >= n ==> k >= blocks
  {
    DivMod(n + e - 1, e);
    DivIff(n + e - 1, e, 0);
    forall k: nat | k * e >= n ensures k >= (n + e - 1) / e {
      DivIff(n + e - 1, e, k);
    }
  }

  /** Where the rounding-up wraps, too few blocks are counted. */
  lemma FewerBlocks(n: nat, e: nat)
    requires 1 <= e < U64 && n + e - 1 >= U64
    ensures BlockCount(n % U64, e) < (n + e - 1) / e
  {
    var sum, blocks := n + e - 1, (n + e - 1) / e;
    ModShift(n % U64 + e - 1, U64, n / U64);
    DivMod(n, U64);
    assert (n % U64 + e - 1) % U64 == sum % U64;
    DivMod(sum, U64);
    DivIff(sum, U64, 1);
    MulMono(1, sum / U64, U64);
    DivMod(sum, e);
    DivIff(sum % U64, e, blocks - 1);
    assert (blocks - 1) * e + e == blocks * e;
  }

  /** A tensor's size is that of the fewest whole blocks that hold its elements if and
      only if neither the rounding-up nor the product with the block size wraps. */
  lemma SizeIsWholeBlocksIff(dims: seq<nat>, g: Geometry, blocks: nat)
    requires 1 <= g.elems < U64 && g.bytes >= 1 && blocks == (Product(dims) + g.elems - 1) / g.elems
    ensures blocks * g.elems >= Product(dims) && forall k: nat :: k * g.elems >= Product(dims) ==> k >= blocks
    ensures Bytes64(Elements(dims), g) == blocks * g.bytes
       <==> Product(dims) + g.elems - 1 < U64 && blocks * g.bytes < U64
  {
    var n := Product(dims);
    ElementsModulo(dims);
    WholeBlocks(n, g.elems);
    MulSign(blocks, g.bytes);
    if n + g.elems - 1 < U64 {
      assert n % U64 == n && BlockCount(n % U64, g.elems) == blocks;
      assert blocks * g.bytes < U64 ==> blocks * g.bytes % U64 == blocks * g.bytes;
    } else {
      FewerBlocks(n, g.elems);
      FewerBytes(BlockCount(n % U64, g.elems), blocks, g.bytes);
    }
  }

  lemma FewerBytes(counted: nat, blocks: nat, bytes: nat)
    requires counted < blocks && bytes >= 1
    ensures counted * bytes % U64 < blocks * bytes
  {
    MulMono(counted + 1, blocks, bytes);
    MulSign(counted, bytes);
    DivMod(counted * bytes, U64);
    DivIff(counted * bytes, U64, 0);
    MulSign(counted * bytes / U64, U64);
    assert (counted + 1) * bytes == counted * bytes + bytes;
  }

  function InfoOf(t: Tensor, dataStart: nat, geometry: int -> Geometry): Info {
    Info(t.name, t.dims, t.kind, t.offset, (dataStart + t.offset) % U64, NBytes(t, geometry), geometry(t.kind).elems > 0)
  }

  function Infos(tensors: seq<Tensor>, dataStart: nat, geometry: int -> Geometry): (infos: seq<Info>)
    ensures |infos| == |tensors|
  {
    if tensors == [] then []
    else Infos(tensors[..|tensors| - 1], dataStart, geometry) + [InfoOf(tensors[|tensors| - 1], dataStart, geometry)]
  }

  function DirectoryOf(h: Header, end: nat, geometry: int -> Geometry): Directory {
    var metadata := ToMap(h.pairs);
    var alignment := AlignmentOf(metadata);
    var dataStart := AlignUp(end, alignment);
    Directory(h.version, metadata, Infos(h.tensors, dataStart, geometry), IndexOf(h.tensors), alignment, dataStart)
  }

  method TensorBytes(kind: int, dims: seq<nat>, geometry: int -> Geometry) returns (nbytes: nat, known: bool)
    ensures nbytes == (if geometry(kind).elems == 0 then 0 else Bytes64(Elements(dims), geometry(kind)))
    ensures known == (geometry(kind).elems > 0)
  {
    var g := geometry(kind);
    if g.elems <= 0 {
      return 0, false;
    }
    var elements := 1;
    for i := 0 to |dims|
      invariant elements == Elements(dims[..i])
    {
      assert dims[..i + 1][..i] == dims[..i];
      elements := elements * dims[i] % U64;
    }
    assert dims[..|dims|] == dims;
    return Bytes64(elements, g), true;
  }

  // ----- the parse -----

  /** The metadata loop. */
  method ReadMetadata(cursor: Cursor, count: nat) returns (r: Outcome<map<Bytes, Entry>>, ghost pairs: seq<Pair>)
    modifies cursor
    ensures match ListAt(cursor.data, old(cursor.pos), count, PairAt)
            case Ok(ps, p) => r == Got(ToMap(ps)) && pairs == ps && cursor.pos == p
            case Fail => r == Error
  {
    var metadata: map<Bytes, Entry> := map[];
    pairs := [];
    for i := 0 to count
      invariant ListAt(cursor.data, old(cursor.pos), i, PairAt) == Ok(pairs, cursor.pos) && metadata == ToMap(pairs)
    {
      var p := cursor.ReadPair();
      if p.Error? {
        FailSticks(cursor.data, old(cursor.pos), i + 1, count, PairAt);
        return Error, pairs;
      }
      assert (pairs + [p.value])[..i] == pairs;
      pairs := pairs + [p.value];
      metadata := metadata[p.value.key := p.value.entry];
    }
    r := Got(metadata);
  }

  method ReadTensors(cursor: Cursor, count: nat) returns (r: Outcome<seq<Tensor>>)
    modifies cursor
    ensures Agrees(r, cursor.pos, ListAt(cursor.data, old(cursor.pos), count, TensorAt))
  {
    var records: seq<Tensor> := [];
    for i := 0 to count
      invariant ListAt(cursor.data, old(cursor.pos), i, TensorAt) == Ok(records, cursor.pos)
    {
      var t := cursor.ReadTensor();
      if t.Error? {
        FailSticks(cursor.data, old(cursor.pos), i + 1, count, TensorAt);
        return Error;
      }
      records := records + [t.value];
    }
    r := Got(records);
  }

  /** The directory loop: addresses, sizes and the name index. */
  method BuildTensors(records: seq<Tensor>, dataStart: nat, geometry: int -> Geometry)
    returns (tensors: seq<Info>, index: map<Bytes, nat>)
    ensures tensors == Infos(records, dataStart, geometry) && index == IndexOf(records)
  {
    tensors, index := [], map[];
    for i := 0 to |records|
      invariant tensors == Infos(records[..i], dataStart, geometry) && |tensors| == i && index == IndexOf(records[..i])
    {
      assert records[..i + 1][..i] == records[..i];
      var t := records[i];
      var nbytes, known := TensorBytes(t.kind, t.dims, geometry);
      index := index[t.name := i];
      tensors := tensors + [Info(t.name, t.dims, t.kind, t.offset, (dataStart + t.offset) % U64, nbytes, known)];
    }
    assert records[..|records|] == records;
  }

  /** The fixed part: magic, version, and the tensor count before the metadata count. */
  method ReadCounts(cursor: Cursor) returns (ok: bool, version: nat, tensorCount: nat, metadataCount: nat)
    requires cursor.pos == 0
    modifies cursor
    ensures ok ==>
              && BytesAt(cursor.data, 0, 4) == Ok(MAGIC, 4) && UIntAt(cursor.data, 4, 4) == Ok(version, 8)
              && UIntAt(cursor.data, 8, 8) == Ok(tensorCount, 16) && UIntAt(cursor.data, 16, 8) == Ok(metadataCount, 24)
              && cursor.pos == 24
    ensures !ok ==> HeaderAt(cursor.data) == Fail
  {
    ok, version, tensorCount, metadataCount := false, 0, 0, 0;
    var magic := cursor.Read(4);
    if magic.Error? || magic.value != MAGIC {
      return;
    }
    var v := cursor.ReadUInt(4);
    if v.Error? {
      return;
    }
    var t := cursor.ReadUInt(8);
    if t.Error? {
      return;
    }
    var m := cursor.ReadUInt(8);
    if m.Error? {
      return;
    }
    return true, v.value, t.value, m.value;
  }

  /** Main result: the parse builds the directory the header describes, and fails
      exactly when the header does not read. */
  method Parse(data: Bytes, geometry: int -> Geometry) returns (r: Outcome<Directory>)
    ensures match HeaderAt(data)
            case Ok(h, end) => r == Got(DirectoryOf(h, end, geometry))
            case Fail => r == Error
  {
    var cursor := new Cursor(data);
    var ok, version, tensorCount, metadataCount := ReadCounts(cursor);
    if !ok {
      return Error;
    }
    ghost var pairs;
    var metadata;
    metadata, pairs := ReadMetadata(cursor, metadataCount);
    if metadata.Error? {
      return Error;
    }
    var records := ReadTensors(cursor, tensorCount);
    if records.Error? {
      return Error;
    }
    assert HeaderAt(data) == Ok(Header(version, pairs, records.value), cursor.pos);
    var alignment := AlignmentOf(metadata.value);
    var dataStart := AlignUp(cursor.pos, alignment);
    var tensors, index := BuildTensors(records.value, dataStart, geometry);
    r := Got(Directory(version, metadata.value, tensors, index, alignment, dataStart));
  }

  // ----- the round trip of a whole file -----

  ghost predicate DistinctKeys(h: Header) {
    && (forall i, j | 0 <= i < j < |h.pairs| :: h.pairs[i].key != h.pairs[j].key)
    && forall i, j | 0 <= i < j < |h.tensors| :: h.tensors[i].name != h.tensors[j].name
  }

  lemma {:induction false} InfosAre(tensors: seq<Tensor>, dataStart: nat, geometry: int -> Geometry, k: nat)
    requires k < |tensors|
    ensures Infos(tensors, dataStart, geometry)[k] == InfoOf(tensors[k], dataStart, geometry)
    decreases |tensors|
  {
    if k < |tensors| - 1 { InfosAre(tensors[..|tensors| - 1], dataStart, geometry, k); }
  }

  /** Main result: parsing a written file, whatever data follows the header, gives back
      every metadata entry under its key and nothing else, and every tensor record in
      order and under its name. */
  lemma FileRoundTrip(h: Header, tail: Bytes, geometry: int -> Geometry)
    requires HeaderFits(h) && DistinctKeys(h)
    ensures var end := |WriteHeader(h)|;
            HeaderAt(WriteHeader(h) + tail) == Ok(h, end)
            && var dir := DirectoryOf(h, end, geometry);
            && (forall k | 0 <= k < |h.pairs| :: h.pairs[k].key in dir.metadata && dir.metadata[h.pairs[k].key] == h.pairs[k].entry)
            && (forall key | key in dir.metadata :: exists k | 0 <= k < |h.pairs| :: h.pairs[k].key == key)
            && |dir.tensors| == |h.tensors|
            && (forall k | 0 <= k < |h.tensors| :: dir.tensors[k] == InfoOf(h.tensors[k], dir.dataStart, geometry))
            && (forall k | 0 <= k < |h.tensors| :: h.tensors[k].name in dir.index && dir.index[h.tensors[k].name] == k)
            && (end < U64 ==> (LeastAligned(dir.dataStart, end, dir.alignment) <==> end + dir.alignment - 1 < U64))
  {
    HeaderRoundTrip(h, tail);
    DirectoryHolds(h, |WriteHeader(h)|, geometry);
    if |WriteHeader(h)| < U64 { AlignUpIff(|WriteHeader(h)|, AlignmentOf(ToMap(h.pairs))); }
  }

  /** A file whose header asks for an alignment of -1. */
  const WRAPPING := Header(3, [Pair(ALIGNMENT_KEY, Entry(11, One(Int(-1))))], [])

  /** Such a file is well formed, and its data section is said to start at 0, inside the
      header. */
  lemma WrappingAlignment(geometry: int -> Geometry)
    ensures HeaderFits(WRAPPING) && DistinctKeys(WRAPPING) && 24 <= |WriteHeader(WRAPPING)| < U64
    ensures DirectoryOf(WRAPPING, |WriteHeader(WRAPPING)|, geometry).dataStart == 0
  {
    WrappingLength();
    WrappingKey();
    Widths();
    AlignBelow(61, U64 - 1);
  }

  lemma WrappingKey()
    ensures AlignmentOf(ToMap(WRAPPING.pairs)) == U64 - 1
  {
    LastWins(WRAPPING.pairs, 0);
  }

  lemma WrappingLength()
    ensures |WriteHeader(WRAPPING)| == 61
  {
    var pair := WRAPPING.pairs[0];
    assert |Fixed(WRAPPING)| == 24;
    assert WRAPPING.pairs[..0] == [] && WriteList<Pair>([], WritePair) == [];
    assert WriteList(WRAPPING.pairs, WritePair) == WriteList(WRAPPING.pairs[..0], WritePair) + WritePair(pair);
    assert WriteList<Tensor>([], WriteTensor) == [];
    assert |WritePair(pair)| == 37;
  }

  lemma DirectoryHolds(h: Header, end: nat, geometry: int -> Geometry)
    requires DistinctKeys(h)
    ensures var dir := DirectoryOf(h, end, geometry);
            && (forall k | 0 <= k < |h.pairs| :: h.pairs[k].key in dir.metadata && dir.metadata[h.pairs[k].key] == h.pairs[k].entry)
            && (forall key | key in dir.metadata :: exists k | 0 <= k < |h.pairs| :: h.pairs[k].key == key)
            && |dir.tensors| == |h.tensors|
            && (forall k | 0 <= k < |h.tensors| :: dir.tensors[k] == InfoOf(h.tensors[k], dir.dataStart, geometry))
            && (forall k | 0 <= k < |h.tensors| :: h.tensors[k].name in dir.index && dir.index[h.tensors[k].name] == k)
  {
    var dir := DirectoryOf(h, end, geometry);
    forall k | 0 <= k < |h.pairs|
      ensures h.pairs[k].key in dir.metadata && dir.metadata[h.pairs[k].key] == h.pairs[k].entry
    {
      LastWins(h.pairs, k);
    }
    forall key | key in dir.metadata ensures exists k | 0 <= k < |h.pairs| :: h.pairs[k].key == key {
      OnlyKeys(h.pairs, key);
    }
    forall k | 0 <= k < |h.tensors|
      ensures dir.tensors[k] == InfoOf(h.tensors[k], dir.dataStart, geometry)
      ensures h.tensors[k].name in dir.index && dir.index[h.tensors[k].name] == k
    {
      InfosAre(h.tensors, dir.dataStart, geometry, k);
      LastNamed(h.tensors, k);
    }
  }

  // ----- a tensor's bytes -----

  datatype Fetch = Data(start: nat, nbytes: nat) | NoTensor | PastEnd | Unmapped

  /** The test of `tensor_data` against the file's size, in 64-bit arithmetic. */
  predicate Accepts(info: Info, size: nat) { (info.absolute + info.nbytes) % U64 <= size }

  /** `tensor_data`: where the bytes of a tensor are said to be. */
  function TensorData(dir: Directory, name: Bytes, size: nat, mapped: bool): Fetch {
    if name !in dir.index || dir.index[name] >= |dir.tensors| then NoTensor
    else
      var info := dir.tensors[dir.index[name]];
      if !Accepts(info, size) then PastEnd else if !mapped then Unmapped else Data(info.absolute, info.nbytes)
  }

  /** A tensor ends inside the file exactly when the test passes and the sum behind it,
      data start and offset included, does not wrap. */
  lemma InsideIff(t: Tensor, dataStart: nat, geometry: int -> Geometry, size: nat)
    requires dataStart < U64 && t.offset < U64 && size < U64
    ensures var info, end := InfoOf(t, dataStart, geometry), dataStart + t.offset + NBytes(t, geometry);
            && (end <= size <==> Accepts(info, size) && end < U64)
            && (end < U64 ==> info.absolute == dataStart + t.offset)
  {
    var place, n := dataStart + t.offset, NBytes(t, geometry);
    if place + n < U64 {
      assert place % U64 == place && (place + n) % U64 == place + n;
    }
  }

  /** Main result: of a written file, a tensor that is fetched by its name lies inside the
      file, where its record puts it, if and only if that sum does not wrap. */
  lemma FetchedIsInsideIff(h: Header, geometry: int -> Geometry, k: nat, size: nat)
    requires HeaderFits(h) && DistinctKeys(h) && k < |h.tensors| && |WriteHeader(h)| < U64 && size < U64
    ensures var t, dir := h.tensors[k], DirectoryOf(h, |WriteHeader(h)|, geometry);
            var end := dir.dataStart + t.offset + NBytes(t, geometry);
            && (TensorData(dir, t.name, size, true).Data? && end < U64 <==> end <= size)
            && (end <= size ==> TensorData(dir, t.name, size, true) == Data(dir.dataStart + t.offset, NBytes(t, geometry)))
  {
    var t, dir := h.tensors[k], DirectoryOf(h, |WriteHeader(h)|, geometry);
    DirectoryHolds(h, |WriteHeader(h)|, geometry);
    StartFits(|WriteHeader(h)|, dir.alignment);
    assert t in h.tensors && TensorFits(t);
    InsideIff(t, dir.dataStart, geometry, size);
  }

  lemma StartFits(end: nat, alignment: nat)
    requires end < U64
    ensures AlignUp(end, alignment) < U64
  {
    if alignment > 0 {
      DivMod((end + alignment - 1) % U64, alignment);
      DivMod(end + alignment - 1, U64);
    }
  }

  /** A file with one tensor of eight floats, 32 bytes before the end of the 64-bit range. */
  const STRAY := Header(3, [], [Tensor([], [8], 0, U64 - 96)])

  /** It is well formed, and its tensor is handed out whatever the size of the file. */
  lemma StrayTensor(geometry: int -> Geometry, size: nat)
    requires geometry(0) == Geometry(1, 4)
    ensures HeaderFits(STRAY) && DistinctKeys(STRAY) && |WriteHeader(STRAY)| < U64
    ensures TensorData(DirectoryOf(STRAY, |WriteHeader(STRAY)|, geometry), [], size, true) == Data(U64 - 32, 32)
  {
    Widths();
    StrayLength();
    StraySize(geometry);
    StrayStart();
    DirectoryHolds(STRAY, 56, geometry);
    assert STRAY.tensors[0] == Tensor([], [8], 0, U64 - 96);
  }

  lemma StrayLength()
    ensures |WriteHeader(STRAY)| == 56 && HeaderFits(STRAY)
  {
    var t := STRAY.tensors[0];
    assert |Fixed(STRAY)| == 24;
    assert WriteList<Pair>([], WritePair) == [] && WriteList<Tensor>([], WriteTensor) == [];
    assert STRAY.tensors[..0] == [] && t.dims[..0] == [] && WriteList<nat>([], U64Writer()) == [];
    assert WriteList(STRAY.tensors, WriteTensor) == WriteList(STRAY.tensors[..0], WriteTensor) + WriteTensor(t);
    assert WriteList(t.dims, U64Writer()) == WriteList(t.dims[..0], U64Writer()) + U64Writer()(8);
    assert |WriteTensor(t)| == 32;
  }

  lemma StraySize(geometry: int -> Geometry)
    requires geometry(0) == Geometry(1, 4)
    ensures NBytes(STRAY.tensors[0], geometry) == 32
  {
    assert [8][..0] == [] && Elements([]) == 1;
    assert Elements([8]) == 8;
    DivIs(8, 1, 8, 0);
  }

  lemma StrayStart()
    ensures AlignmentOf(ToMap(STRAY.pairs)) == 32 && AlignUp(56, 32) == 64
  {
    DivIs(87, 32, 2, 23);
  }
}
