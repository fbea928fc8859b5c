/** The eight-column panel: eight 144-byte blocks interleaved into 1152 bytes, and the
    repacking of a whole weight matrix. */
module Q4KPanel {
  import opened Arith
  import opened Q4KBlock

  datatype Panel = Panel(d: seq<Bytes>, dmin: seq<Bytes>, scales: Bytes, qs: Bytes)

  ghost predicate Columns(cols: seq<Bytes>) {
    |cols| == 8 && forall c | 0 <= c < 8 :: IsBlock(cols[c])
  }

  /** Byte `x` of the interleaved quants: chunks of eight bytes, dealt to the columns
      in turn. */
  function QuantByte(cols: seq<Bytes>, x: nat): bv8
    requires Columns(cols) && x < 1024
  {
    cols[(x / 8) % 8][QS_AT + (x / 64) * 8 + x % 8]
  }

  /** Run `g` of twelve bytes unpacks to the scales and minima of group `g` of the
      eight columns. */
  ghost predicate RunHolds(scales: Bytes, cols: seq<Bytes>, g: nat)
    requires Columns(cols) && g < 8
  {
    && |scales| == 96
    && forall c: nat | c < 8 :: ColumnHolds(Unpacked(scales[12 * g..12 * g + 12]), cols[c], c, g)
  }

  ghost predicate ColumnHolds(bytes: Bytes, block: Bytes, c: nat, g: nat)
    requires IsBlock(block) && c < 8 && g < 8 && |bytes| == 16
  {
    bytes[c] == Unpacked(Scales(block))[g] && bytes[8 + c] == Unpacked(Scales(block))[8 + g]
  }

  ghost predicate QuantsOf(qs: Bytes, cols: seq<Bytes>)
    requires Columns(cols)
  {
    |qs| == 1024 && forall x: nat | x < 1024 :: qs[x] == QuantByte(cols, x)
  }

  ghost predicate IsPanelOf(o: Panel, cols: seq<Bytes>)
    requires Columns(cols)
  {
    && |o.d| == 8 && |o.dmin| == 8 && |o.scales| == 96
    && (forall r | 0 <= r < 8 :: o.d[r] == cols[r][0..2] && o.dmin[r] == cols[r][2..4])
    && QuantsOf(o.qs, cols)
    && (forall g: nat | g < 8 :: RunHolds(o.scales, cols, g))
  }

  // ----- six-bit packing -----

  /** The low six bits of `lo` and the top two of `hi`. */
  function SixBitsWith(lo: bv8, hi: bv8): bv8 { (lo & 63) | ((hi & 48) << 2) }

  function TwoNibbles(a: bv8, b: bv8): bv8 { (a & 15) | ((b & 15) << 4) }

  /** Packing and unpacking one column of each half loses nothing. */
  lemma PackedColumn(sLo: bv8, sHi: bv8, mLo: bv8, mHi: bv8)
    requires sLo < 64 && sHi < 64 && mLo < 64 && mHi < 64
    ensures Low6(SixBitsWith(sLo, sHi)) == sLo && Low6(SixBitsWith(mLo, mHi)) == mLo
    ensures Nibble4(TwoNibbles(sHi, mHi), SixBitsWith(sLo, sHi)) == sHi
    ensures Nibble4High(TwoNibbles(sHi, mHi), SixBitsWith(mLo, mHi)) == mHi
  {
  }

  ghost predicate Six(v: Bytes) { |v| == 8 && forall j | 0 <= j < 8 :: v[j] < 64 }

  /** The twelve bytes of one run. */
  function PackRun(sv: Bytes, mv: Bytes): (q: Bytes)
    requires |sv| == 8 && |mv| == 8
    ensures |q| == 12
  {
    seq(12, (t: nat) requires t < 12 =>
      if t < 4 then SixBitsWith(sv[t], sv[t + 4])
      else if t < 8 then SixBitsWith(mv[t - 4], mv[t])
      else TwoNibbles(sv[t - 4], mv[t - 4]))
  }

  lemma RunColumn(sv: Bytes, mv: Bytes, c: nat)
    requires Six(sv) && Six(mv) && c < 8
    ensures Unpacked(PackRun(sv, mv))[c] == sv[c] && Unpacked(PackRun(sv, mv))[8 + c] == mv[c]
  {
    var j := if c < 4 then c else c - 4;
    PackedColumn(sv[j], sv[j + 4], mv[j], mv[j + 4]);
    var q := PackRun(sv, mv);
    assert q[j] == SixBitsWith(sv[j], sv[j + 4]) && q[4 + j] == SixBitsWith(mv[j], mv[j + 4]);
    assert q[8 + j] == TwoNibbles(sv[j + 4], mv[j + 4]);
  }

  /** The scale and minimum of one group of one block, as the repacker extracts
      them. */
  function PickScale(sc: Bytes, pass: nat, i: nat): bv8
    requires |sc| == 12 && i < 4
  {
    if pass == 0 then sc[i] & 63 else ((sc[i] & 192) >> 2) | (sc[i + 8] & 15)
  }

  function PickMin(sc: Bytes, pass: nat, i: nat): bv8
    requires |sc| == 12 && i < 4
  {
    if pass == 0 then sc[i + 4] & 63 else ((sc[i + 4] & 192) >> 2) | ((sc[i + 8] & 240) >> 4)
  }

  lemma PickedBits(lo: bv8, hi: bv8)
    ensures ((hi & 192) >> 2) | (lo & 15) == Nibble4(lo, hi)
    ensures ((hi & 192) >> 2) | ((lo & 240) >> 4) == Nibble4High(lo, hi)
    ensures Low6(lo) < 64 && Nibble4(lo, hi) < 64 && Nibble4High(lo, hi) < 64
  {
  }

  /** They are what the row kernel's unpacking reads. */
  lemma Picked(sc: Bytes, pass: nat, i: nat)
    requires |sc| == 12 && i < 4 && pass < 2
    ensures PickScale(sc, pass, i) == Unpacked(sc)[4 * pass + i] && PickScale(sc, pass, i) < 64
    ensures PickMin(sc, pass, i) == Unpacked(sc)[8 + 4 * pass + i] && PickMin(sc, pass, i) < 64
  {
    PickedBits(sc[i], 0);
    PickedBits(sc[i + 4], 0);
    PickedBits(sc[i + 8], sc[i]);
    PickedBits(sc[i + 8], sc[i + 4]);
  }

  // ----- one panel -----

  /** `memcpy` of a short run. */
  method Store(dst: array<bv8>, at: nat, src: Bytes)
    requires at + |src| <= dst.Length
    modifies dst
    ensures forall a | 0 <= a < dst.Length :: dst[a] == if at <= a < at + |src| then src[a - at] else old(dst[a])
  {
    for t := 0 to |src|
      invariant forall a | 0 <= a < dst.Length :: dst[a] == if at <= a < at + t then src[a - at] else old(dst[a])
    {
      dst[at + t] := src[t];
    }
  }

  method PackQuants(cols: seq<Bytes>) returns (qs: Bytes)
    requires Columns(cols)
    ensures QuantsOf(qs, cols)
  {
    var out := new bv8[1024];
    for i := 0 to 128
      invariant forall x: nat | x < 8 * i :: out[x] == QuantByte(cols, x)
    {
      var at := QS_AT + (i / 8) * 8;
      Store(out, i * 8, cols[i % 8][at..at + 8]);
    }
    qs := out[..];
  }

  /** The scales and minima of group `4 * pass + i` of the eight columns. */
  method PickRun(cols: seq<Bytes>, pass: nat, i: nat) returns (sv: Bytes, mv: Bytes)
    requires Columns(cols) && pass < 2 && i < 4
    ensures Six(sv) && Six(mv)
    ensures forall j: nat | j < 8 :: sv[j] == Unpacked(Scales(cols[j]))[4 * pass + i]
    ensures forall j: nat | j < 8 :: mv[j] == Unpacked(Scales(cols[j]))[8 + 4 * pass + i]
  {
    sv, mv := [], [];
    for j := 0 to 8
      invariant |sv| == j && |mv| == j && (forall t | 0 <= t < j :: sv[t] < 64 && mv[t] < 64)
      invariant forall t: nat | t < j :: sv[t] == Unpacked(Scales(cols[t]))[4 * pass + i]
      invariant forall t: nat | t < j :: mv[t] == Unpacked(Scales(cols[t]))[8 + 4 * pass + i]
    {
      var sc := Scales(cols[j]);
      Picked(sc, pass, i);
      sv, mv := sv + [PickScale(sc, pass, i)], mv + [PickMin(sc, pass, i)];
    }
  }

  lemma RunStored(scales: Bytes, cols: seq<Bytes>, g: nat, sv: Bytes, mv: Bytes)
    requires Columns(cols) && g < 8 && |scales| == 96 && Six(sv) && Six(mv)
    requires scales[12 * g..12 * g + 12] == PackRun(sv, mv)
    requires forall j: nat | j < 8 :: sv[j] == Unpacked(Scales(cols[j]))[g] && mv[j] == Unpacked(Scales(cols[j]))[8 + g]
    ensures RunHolds(scales, cols, g)
  {
    forall c: nat | c < 8 ensures ColumnHolds(Unpacked(scales[12 * g..12 * g + 12]), cols[c], c, g) {
      RunColumn(sv, mv, c);
    }
  }

  lemma RunKept(scales: Bytes, scales': Bytes, cols: seq<Bytes>, g: nat)
    requires Columns(cols) && g < 8 && RunHolds(scales, cols, g) && |scales'| == 96
    requires forall a | 12 * g <= a < 12 * g + 12 :: scales'[a] == scales[a]
    ensures RunHolds(scales', cols, g)
  {
    assert scales'[12 * g..12 * g + 12] == scales[12 * g..12 * g + 12];
  }

  /** The runs written before `(i, pass)`. */
  ghost predicate RunsBefore(scales: Bytes, cols: seq<Bytes>, i: nat, pass: nat)
    requires Columns(cols)
  {
    forall g: nat | g < 8 && (g % 4 < i || (g % 4 == i && g / 4 < pass)) :: RunHolds(scales, cols, g)
  }

  method PackScales(cols: seq<Bytes>) returns (scales: Bytes)
    requires Columns(cols)
    ensures |scales| == 96 && forall g: nat | g < 8 :: RunHolds(scales, cols, g)
  {
    var out := new bv8[96];
    for i := 0 to 4
      invariant RunsBefore(out[..], cols, i, 0)
    {
      for pass := 0 to 2
        invariant RunsBefore(out[..], cols, i, pass)
      {
        ghost var before, g := out[..], 4 * pass + i;
        var sv, mv := PickRun(cols, pass, i);
        Store(out, pass * 48 + i * 12, PackRun(sv, mv));
        assert out[..][12 * g..12 * g + 12] == PackRun(sv, mv);
        RunStored(out[..], cols, g, sv, mv);
        forall k: nat | k < 8 && k != g && RunHolds(before, cols, k) ensures RunHolds(out[..], cols, k) {
          assert 12 * k + 12 <= 12 * g || 12 * g + 12 <= 12 * k;
          RunKept(before, out[..], cols, k);
        }
      }
    }
    scales := out[..];
  }

  /** `make_block_q4_Kx8`: one panel from eight blocks. */
  method RepackPanel(cols: seq<Bytes>) returns (o: Panel)
    requires Columns(cols)
    ensures IsPanelOf(o, cols)
  {
    var d: seq<Bytes>, dmin: seq<Bytes> := [], [];
    for r := 0 to 8
      invariant |d| == r && |dmin| == r
      invariant forall t | 0 <= t < r :: d[t] == cols[t][0..2] && dmin[t] == cols[t][2..4]
    {
      d, dmin := d + [cols[r][0..2]], dmin + [cols[r][2..4]];
    }
    var qs := PackQuants(cols);
    var scales := PackScales(cols);
    o := Panel(d, dmin, scales, qs);
  }

  // ----- the whole matrix -----

  /** A matrix of `rows` weight rows of `nb` blocks each, row-major. */
  ghost predicate Matrix(blocks: Bytes, rows: nat, nb: nat) {
    forall row: nat, b: nat | row < rows && b < nb :: BlockIn(blocks, nb, row, b)
  }

  predicate BlockIn(blocks: Bytes, nb: nat, row: nat, b: nat) { BlockOffset(nb, row, b) + BLOCK_BYTES <= |blocks| }

  function BlockOffset(nb: nat, row: nat, b: nat): nat { row * (nb * BLOCK_BYTES) + b * BLOCK_BYTES }

  lemma MatrixHolds(blocks: Bytes, rows: nat, nb: nat)
    requires |blocks| == rows * (nb * BLOCK_BYTES)
    ensures Matrix(blocks, rows, nb)
  {
    forall row: nat, b: nat | row < rows && b < nb ensures BlockIn(blocks, nb, row, b) {
      MulMono(row, rows, nb * BLOCK_BYTES);
    }
  }

  function BlockAt(blocks: Bytes, nb: nat, row: nat, b: nat): (block: Bytes)
    requires BlockIn(blocks, nb, row, b)
    ensures |block| == BLOCK_BYTES
  {
    blocks[BlockOffset(nb, row, b)..BlockOffset(nb, row, b) + BLOCK_BYTES]
  }

  /** The eight blocks that become panel `(p, b)`. */
  function PanelColumns(blocks: Bytes, rows: nat, nb: nat, p: nat, b: nat): (cols: seq<Bytes>)
    requires Matrix(blocks, rows, nb) && p * 8 + 8 <= rows && b < nb
    ensures Columns(cols) && forall r: nat | r < 8 :: cols[r] == BlockAt(blocks, nb, p * 8 + r, b)
  {
    var cols := seq(8, (r: nat) requires r < 8 => BlockAt(blocks, nb, p * 8 + r, b));
    assert forall c: nat | c < 8 :: cols[c] == BlockAt(blocks, nb, p * 8 + c, b);
    cols
  }

  /** Panel `(p, b)` is in its place. */
  ghost predicate Packed(panels: seq<Panel>, blocks: Bytes, rows: nat, nb: nat, p: nat, b: nat)
    requires Matrix(blocks, rows, nb) && p * 8 + 8 <= rows && b < nb
  {
    PanelIndex(nb, p, b) < |panels| && IsPanelOf(panels[PanelIndex(nb, p, b)], PanelColumns(blocks, rows, nb, p, b))
  }

  function PanelIndex(nb: nat, p: nat, b: nat): nat { p * nb + b }

  ghost predicate AllPacked(panels: seq<Panel>, blocks: Bytes, rows: nat, nb: nat)
    requires Matrix(blocks, rows, nb)
  {
    forall p: nat, b: nat | p < rows / 8 && b < nb :: Packed(panels, blocks, rows, nb, p, b)
  }

  /** The panels written before `(p, b)`. */
  ghost predicate PackedBefore(panels: seq<Panel>, blocks: Bytes, rows: nat, nb: nat, p: nat, b: nat)
    requires Matrix(blocks, rows, nb)
  {
    forall p': nat, b': nat | p' < rows / 8 && b' < nb && (p' < p || (p' == p && b' < b)) ::
      Packed(panels, blocks, rows, nb, p', b')
  }

  lemma IndexApart(nb: nat, p: nat, b: nat, p': nat, b': nat)
    requires b < nb && b' < nb && PanelIndex(nb, p, b) == PanelIndex(nb, p', b')
    ensures p == p' && b == b'
  {
    Flat(p, b, nb);
    Flat(p', b', nb);
  }

  lemma PackedStep(panels: seq<Panel>, panels': seq<Panel>, blocks: Bytes, rows: nat, nb: nat, p: nat, b: nat)
    requires Matrix(blocks, rows, nb) && p < rows / 8 && b < nb && PackedBefore(panels, blocks, rows, nb, p, b)
    requires Packed(panels', blocks, rows, nb, p, b) && |panels'| == |panels|
    requires forall i | 0 <= i < |panels| && i != PanelIndex(nb, p, b) :: panels'[i] == panels[i]
    ensures PackedBefore(panels', blocks, rows, nb, p, b + 1)
  {
    forall p': nat, b': nat | p' < rows / 8 && b' < nb && (p' < p || (p' == p && b' < b + 1))
      ensures Packed(panels', blocks, rows, nb, p', b')
    {
      if p' != p || b' != b {
        assert Packed(panels, blocks, rows, nb, p', b');
        if PanelIndex(nb, p, b) == PanelIndex(nb, p', b') { IndexApart(nb, p, b, p', b'); }
      }
    }
  }

  /** Main result: every group of eight weight rows becomes a row of panels.  Rows past
      the last whole group are not packed. */
  method RepackWeights(blocks: Bytes, n: nat, k: nat, panels: array<Panel>)
    requires |blocks| == n * (k / 256 * BLOCK_BYTES) && panels.Length == n / 8 * (k / 256)
    modifies panels
    ensures Matrix(blocks, n, k / 256) && AllPacked(panels[..], blocks, n, k / 256)
  {
    var nb := k / 256;
    MatrixHolds(blocks, n, nb);
    for p := 0 to n / 8
      invariant PackedBefore(panels[..], blocks, n, nb, p, 0)
    {
      for b := 0 to nb
        invariant PackedBefore(panels[..], blocks, n, nb, p, b)
      {
        FlatIn(p, b, n / 8, nb);
        ghost var before := panels[..];
        var o := RepackPanel(PanelColumns(blocks, n, nb, p, b));
        panels[PanelIndex(nb, p, b)] := o;
        PackedStep(before, panels[..], blocks, n, nb, p, b);
      }
    }
  }
}
