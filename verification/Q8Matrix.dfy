/** Packing a whole matrix of quantized activations, four rows and one block at a time. */
module Q8Matrix {
  import opened Arith
  import opened Q4KBlock
  import opened Q8Pack

  /** A quantized block of 256 activations. */
  datatype Q8Block<F> = Q8Block(d: F, qs: seq<int>)

  /** Four of them, interleaved. */
  datatype Q8Kx4<F> = Q8Kx4(d: seq<F>, qs: seq<int>, bsums: seq<int>)

  /** Row `r` of the activations is `q8[r]`: `nb` blocks of int8. */
  ghost predicate Quantized<F>(q8: seq<seq<Q8Block<F>>>, nb: nat) {
    forall row | row in q8 :: |row| == nb && forall q | q in row :: Ready(q)
  }

  ghost predicate Ready<F>(q: Q8Block<F>) { |q.qs| == 256 && forall v | v in q.qs :: -128 <= v <= 127 }

  /** The packed block `o` holds every scale and every activation of four blocks, each at
      its own place, and the sums by sixteens. */
  ghost predicate IsPackOf<F>(o: Q8Kx4<F>, four: seq<Q8Block<F>>) {
    && |four| == 4 && |o.d| == 4 && |o.qs| == 1024 && |o.bsums| == 64
    && (forall m | 0 <= m < 4 :: o.d[m] == four[m].d && |four[m].qs| == 256)
    && (forall m: nat, w: nat | m < 4 && w < 256 :: PackAt(m, w) < 1024 && o.qs[PackAt(m, w)] == four[m].qs[w])
    && forall m: nat, g: nat | m < 4 && g < 16 :: SumAt(m, g) < 64 && o.bsums[SumAt(m, g)] == SumRun(four[m].qs, 16 * g, 16)
  }

  /** Block `b` of the rows `4 * g` to `4 * g + 3`. */
  function FourBlocks<F>(q8: seq<seq<Q8Block<F>>>, nb: nat, g: nat, b: nat): (four: seq<Q8Block<F>>)
    requires Quantized(q8, nb) && 4 * g + 4 <= |q8| && b < nb
    ensures |four| == 4 && forall m | 0 <= m < 4 :: four[m] == q8[4 * g + m][b]
  {
    seq(4, m requires 0 <= m < 4 => assert q8[4 * g + m] in q8; q8[4 * g + m][b])
  }

  function Cell(g: nat, b: nat, nb: nat): nat { g * nb + b }

  /** The place of group `g`, block `b` holds the packing of its four blocks. */
  ghost predicate PackedHere<F>(packed: seq<Q8Kx4<F>>, q8: seq<seq<Q8Block<F>>>, nb: nat, g: nat, b: nat)
    requires Quantized(q8, nb) && 4 * g + 4 <= |q8| && b < nb
  {
    Cell(g, b, nb) < |packed| && IsPackOf(packed[Cell(g, b, nb)], FourBlocks(q8, nb, g, b))
  }

  /** The blocks before `(g, b)` are packed, and what lies behind the groups is as in
      `was`. */
  ghost predicate GroupsBefore<F>(packed: seq<Q8Kx4<F>>, was: seq<Q8Kx4<F>>, q8: seq<seq<Q8Block<F>>>, nb: nat, g: nat, b: nat)
    requires Quantized(q8, nb)
  {
    && |packed| == |was| && (forall i | |q8| / 4 * nb <= i < |was| :: packed[i] == was[i])
    && forall g': nat, b': nat | g' < |q8| / 4 && b' < nb && (g' < g || (g' == g && b' < b)) :: PackedHere(packed, q8, nb, g', b')
  }

  lemma GroupStep<F>(packed: seq<Q8Kx4<F>>, o: Q8Kx4<F>, was: seq<Q8Kx4<F>>, q8: seq<seq<Q8Block<F>>>, nb: nat, g: nat, b: nat)
    requires Quantized(q8, nb) && g < |q8| / 4 && b < nb && |packed| >= |q8| / 4 * nb
    requires GroupsBefore(packed, was, q8, nb, g, b) && IsPackOf(o, FourBlocks(q8, nb, g, b))
    ensures Cell(g, b, nb) < |packed| && GroupsBefore(packed[Cell(g, b, nb) := o], was, q8, nb, g, b + 1)
  {
    FlatIn(g, b, |q8| / 4, nb);
    var packed' := packed[Cell(g, b, nb) := o];
    forall g': nat, b': nat | g' < |q8| / 4 && b' < nb && (g' < g || (g' == g && b' < b + 1))
      ensures PackedHere(packed', q8, nb, g', b')
    {
      Flat(g, b, nb);
      Flat(g', b', nb);
      if g' != g || b' != b { assert PackedHere(packed, q8, nb, g', b'); }
    }
  }

  /** One packed block with its scales. */
  method PackFour<F>(four: seq<Q8Block<F>>) returns (o: Q8Kx4<F>)
    requires |four| == 4 && forall m | 0 <= m < 4 :: Ready(four[m])
    ensures IsPackOf(o, four)
  {
    var rows := seq(4, m requires 0 <= m < 4 => four[m].qs);
    forall m, w | 0 <= m < 4 && 0 <= w < 256 ensures -128 <= rows[m][w] <= 127 {
      assert four[m].qs[w] in four[m].qs;
    }
    var qs, bsums := PackBlock(rows);
    o := Q8Kx4(seq(4, m requires 0 <= m < 4 => four[m].d), qs, bsums);
  }

  method PackOne<F>(q8: seq<seq<Q8Block<F>>>, nb: nat, g: nat, b: nat, packed: array<Q8Kx4<F>>, ghost was: seq<Q8Kx4<F>>)
    requires Quantized(q8, nb) && g < |q8| / 4 && b < nb && packed.Length >= |q8| / 4 * nb
    requires GroupsBefore(packed[..], was, q8, nb, g, b)
    modifies packed
    ensures GroupsBefore(packed[..], was, q8, nb, g, b + 1)
  {
    FlatIn(g, b, |q8| / 4, nb);
    BlocksFit(q8, nb, g, b);
    var o := PackFour(FourBlocks(q8, nb, g, b));
    GroupStep(packed[..], o, was, q8, nb, g, b);
    packed[g * nb + b] := o;
  }

  lemma BlocksFit<F>(q8: seq<seq<Q8Block<F>>>, nb: nat, g: nat, b: nat)
    requires Quantized(q8, nb) && 4 * g + 4 <= |q8| && b < nb
    ensures forall m | 0 <= m < 4 :: Ready(FourBlocks(q8, nb, g, b)[m])
  {
    forall m | 0 <= m < 4 ensures Ready(FourBlocks(q8, nb, g, b)[m]) {
      assert q8[4 * g + m] in q8 && q8[4 * g + m][b] in q8[4 * g + m];
    }
  }

  /** Main result: the four-row group `g` and block `b` of quantized activations are
      packed at `packed[g * nb + b]`, for every whole group and every block; leftover rows
      are not packed, and nothing behind the groups is written. */
  method PackActivations<F>(q8: seq<seq<Q8Block<F>>>, nb: nat, packed: array<Q8Kx4<F>>)
    requires Quantized(q8, nb) && packed.Length >= |q8| / 4 * nb
    modifies packed
    ensures forall g: nat, b: nat | g < |q8| / 4 && b < nb :: PackedHere(packed[..], q8, nb, g, b)
    ensures forall i | |q8| / 4 * nb <= i < packed.Length :: packed[i] == old(packed[i])
  {
    ghost var was := packed[..];
    for g := 0 to |q8| / 4
      invariant GroupsBefore(packed[..], was, q8, nb, g, 0)
    {
      PackGroup(q8, nb, g, packed, was);
    }
  }

  /** All blocks of one group. */
  method PackGroup<F>(q8: seq<seq<Q8Block<F>>>, nb: nat, g: nat, packed: array<Q8Kx4<F>>, ghost was: seq<Q8Kx4<F>>)
    requires Quantized(q8, nb) && g < |q8| / 4 && packed.Length >= |q8| / 4 * nb
    requires GroupsBefore(packed[..], was, q8, nb, g, 0)
    modifies packed
    ensures GroupsBefore(packed[..], was, q8, nb, g + 1, 0)
  {
    for b := 0 to nb
      invariant GroupsBefore(packed[..], was, q8, nb, g, b)
    {
      PackOne(q8, nb, g, b, packed, was);
    }
  }
}
