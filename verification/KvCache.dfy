/** The KV cache of the model: appends, growth, reservation and reset, against the
    history of rows each sequence has been given. */
module KvCache {
  import opened Arith
  import opened KvLayout

  const INITIAL_POSITIONS := 256

  type Row = seq<real>

  /** What one token stores in one layer. */
  datatype Entry = Entry(k: Row, v: Row)

  /** What one token stores: an entry per layer. */
  type Token = seq<Entry>

  datatype Error = None | NoSequence | NoTokens | PastContext | WrongPosition | BadReservation

  /** The length of sequence `s`, zero when the cache has not seen it. */
  function LengthOf(seqLen: seq<nat>, s: nat): nat {
    if s < |seqLen| then seqLen[s] else 0
  }

  function HistoryOf(hist: seq<seq<Token>>, s: nat): seq<Token> {
    if s < |hist| then hist[s] else []
  }

  /** Copy `rows` rows of slab `from` into slab `to`. */
  method CopySlab(dst: array2<Row>, to: nat, src: array2<Row>, from: nat, rows: nat)
    requires dst != src && to < dst.Length0 && from < src.Length0 && rows <= dst.Length1 && rows <= src.Length1
    modifies dst
    ensures forall t, p | 0 <= t < dst.Length0 && 0 <= p < dst.Length1 ::
              dst[t, p] == if t == to && p < rows then src[from, p] else old(dst[t, p])
  {
    for i := 0 to rows
      invariant forall t, p | 0 <= t < dst.Length0 && 0 <= p < dst.Length1 ::
                  dst[t, p] == if t == to && p < i then src[from, p] else old(dst[t, p])
    {
      dst[to, i] := src[from, i];
    }
  }

  /** Slab `t` of the grown cache holds what was copied into it. */
  ghost predicate SlabCopied(dst: array2<Row>, src: array2<Row>, t: nat, from: nat, rows: nat)
    reads dst, src
  {
    t < dst.Length0 && from < src.Length0 && rows <= dst.Length1 && rows <= src.Length1
    && forall p | 0 <= p < rows :: dst[t, p] == src[from, p]
  }

  /** The slabs copied before `(layer, slot)`. */
  ghost predicate CopiedBefore(dst: array2<Row>, src: array2<Row>, nLayer: nat, oldSlots: nat, nSeq: nat, rows: nat,
                               layer: nat, slot: nat)
    requires nSeq >= 1
    reads dst, src
  {
    forall t: nat | t < nLayer * nSeq && CopiedFrom(nLayer, oldSlots, nSeq, t) >= 0
                 && (t / nSeq < layer || (t / nSeq == layer && t % nSeq < slot)) ::
      SlabCopied(dst, src, t, CopiedFrom(nLayer, oldSlots, nSeq, t), rows)
  }

  lemma SlabIndex(nLayer: nat, oldSlots: nat, nSeq: nat, layer: nat, slot: nat)
    requires layer < nLayer && slot < Min(oldSlots, nSeq)
    ensures layer * nSeq + slot < nLayer * nSeq && layer * oldSlots + slot < nLayer * oldSlots
    ensures (layer * nSeq + slot) / nSeq == layer && (layer * nSeq + slot) % nSeq == slot
    ensures CopiedFrom(nLayer, oldSlots, nSeq, layer * nSeq + slot) == layer * oldSlots + slot
  {
    FlatIn(layer, slot, nLayer, nSeq);
    FlatIn(layer, slot, nLayer, oldSlots);
    Flat(layer, slot, nSeq);
  }

  method CopyOne(dst: array2<Row>, src: array2<Row>, nLayer: nat, oldSlots: nat, nSeq: nat, rows: nat, layer: nat, slot: nat)
    requires nSeq >= 1 && dst != src && dst.Length0 == nLayer * nSeq && src.Length0 == nLayer * oldSlots
    requires rows <= dst.Length1 && rows <= src.Length1 && layer < nLayer && slot < Min(oldSlots, nSeq)
    requires CopiedBefore(dst, src, nLayer, oldSlots, nSeq, rows, layer, slot)
    modifies dst
    ensures CopiedBefore(dst, src, nLayer, oldSlots, nSeq, rows, layer, slot + 1)
  {
    SlabIndex(nLayer, oldSlots, nSeq, layer, slot);
    var to, from := layer * nSeq + slot, layer * oldSlots + slot;
    label before:
    CopySlab(dst, to, src, from, rows);
    forall t: nat | t < nLayer * nSeq && CopiedFrom(nLayer, oldSlots, nSeq, t) >= 0
                 && (t / nSeq < layer || (t / nSeq == layer && t % nSeq < slot + 1))
      ensures SlabCopied(dst, src, t, CopiedFrom(nLayer, oldSlots, nSeq, t), rows)
    {
      if t != to {
        DivMod(t, nSeq);
        assert old@before(SlabCopied(dst, src, t, CopiedFrom(nLayer, oldSlots, nSeq, t), rows));
      }
    }
  }

  /** Carry every `(layer, slot)` slab that exists in both allocations. */
  method CopySlabs(dst: array2<Row>, src: array2<Row>, nLayer: nat, oldSlots: nat, nSeq: nat, rows: nat)
    requires nSeq >= 1 && dst != src && dst.Length0 == nLayer * nSeq && src.Length0 == nLayer * oldSlots
    requires rows <= dst.Length1 && rows <= src.Length1
    modifies dst
    ensures CopiedBefore(dst, src, nLayer, oldSlots, nSeq, rows, nLayer, 0)
  {
    var slots := Min(oldSlots, nSeq);
    for layer := 0 to nLayer
      invariant CopiedBefore(dst, src, nLayer, oldSlots, nSeq, rows, layer, 0)
    {
      for slot := 0 to slots
        invariant CopiedBefore(dst, src, nLayer, oldSlots, nSeq, rows, layer, slot)
      {
        CopyOne(dst, src, nLayer, oldSlots, nSeq, rows, layer, slot);
      }
    }
  }

  // ----- appending -----

  predicate Shaped(toks: seq<Token>, nLayer: nat) {
    forall i | 0 <= i < |toks| :: |toks[i]| == nLayer
  }

  /** The arrays hold row `p` of layer `il` of sequence `s` as `e`. */
  ghost predicate RowIs(k: array2<Row>, v: array2<Row>, nLayer: nat, il: nat, s: nat, p: nat, e: Entry)
    reads k, v
  {
    var t := Slab(nLayer, il, s);
    t < k.Length0 && t < v.Length0 && p < k.Length1 && p < v.Length1 && k[t, p] == e.k && v[t, p] == e.v
  }

  /** Store the rows of one sequence in one layer. */
  method AppendOne(k: array2<Row>, v: array2<Row>, t: nat, at: nat, toks: seq<Token>, nLayer: nat, il: nat)
    requires k != v && t < k.Length0 && t < v.Length0 && at + |toks| <= k.Length1 && at + |toks| <= v.Length1
    requires Shaped(toks, nLayer) && il < nLayer
    modifies k, v
    ensures forall i, p | 0 <= i < k.Length0 && 0 <= p < k.Length1 ::
              k[i, p] == if i == t && at <= p < at + |toks| then toks[p - at][il].k else old(k[i, p])
    ensures forall i, p | 0 <= i < v.Length0 && 0 <= p < v.Length1 ::
              v[i, p] == if i == t && at <= p < at + |toks| then toks[p - at][il].v else old(v[i, p])
  {
    for n := 0 to |toks|
      invariant forall i, p | 0 <= i < k.Length0 && 0 <= p < k.Length1 ::
                  k[i, p] == if i == t && at <= p < at + n then toks[p - at][il].k else old(k[i, p])
      invariant forall i, p | 0 <= i < v.Length0 && 0 <= p < v.Length1 ::
                  v[i, p] == if i == t && at <= p < at + n then toks[p - at][il].v else old(v[i, p])
    {
      k[t, at + n] := toks[n][il].k;
      v[t, at + n] := toks[n][il].v;
    }
  }

  /** The history of sequence `s`, as stored. */
  ghost predicate SeqHeld(k: array2<Row>, v: array2<Row>, nLayer: nat, s: nat, hist: seq<Token>)
    requires Shaped(hist, nLayer)
    reads k, v
  {
    forall p: nat, il: nat | p < |hist| && il < nLayer :: RowIs(k, v, nLayer, il, s, p, hist[p][il])
  }

  /** One forward pass's writes. */
  ghost predicate Batch(starts: seq<nat>, batch: seq<seq<Token>>, nLayer: nat) {
    |starts| == |batch| && forall s | 0 <= s < |batch| :: Shaped(batch[s], nLayer)
  }

  /** Row `i` of the batch of sequence `s` is stored in layer `il`. */
  ghost predicate Stored(k: array2<Row>, v: array2<Row>, nLayer: nat, starts: seq<nat>, batch: seq<seq<Token>>, il: nat, s: nat)
    requires Batch(starts, batch, nLayer) && il < nLayer && s < |batch|
    reads k, v
  {
    forall i: nat | i < |batch[s]| :: RowIs(k, v, nLayer, il, s, starts[s] + i, batch[s][i][il])
  }

  ghost predicate StoredBefore(k: array2<Row>, v: array2<Row>, nLayer: nat, starts: seq<nat>, batch: seq<seq<Token>>, il: nat, s: nat)
    requires Batch(starts, batch, nLayer)
    reads k, v
  {
    forall il': nat, s': nat | il' < nLayer && s' < |batch| && (il' < il || (il' == il && s' < s)) ::
      Stored(k, v, nLayer, starts, batch, il', s')
  }

  /** Nothing below a sequence's start, and nothing of a sequence outside the batch,
      has moved. */
  twostate predicate Untouched(k: array2<Row>, v: array2<Row>, nLayer: nat, starts: seq<nat>)
    reads k, v
  {
    forall il: nat, s: nat, p: nat, e: Entry | il < nLayer && (s < |starts| ==> p < starts[s]) && old(RowIs(k, v, nLayer, il, s, p, e)) ::
      RowIs(k, v, nLayer, il, s, p, e)
  }

  method AppendAll(k: array2<Row>, v: array2<Row>, nLayer: nat, slots: nat, starts: seq<nat>, batch: seq<seq<Token>>)
    requires k != v && k.Length0 == v.Length0 == nLayer * slots && k.Length1 == v.Length1 && Batch(starts, batch, nLayer)
    requires |batch| <= slots && forall s | 0 <= s < |batch| :: starts[s] + |batch[s]| <= k.Length1
    modifies k, v
    ensures StoredBefore(k, v, nLayer, starts, batch, nLayer, 0)
    ensures Untouched(k, v, nLayer, starts)
  {
    for il := 0 to nLayer
      invariant StoredBefore(k, v, nLayer, starts, batch, il, 0)
      invariant Untouched(k, v, nLayer, starts)
    {
      for s := 0 to |batch|
        invariant StoredBefore(k, v, nLayer, starts, batch, il, s)
        invariant Untouched(k, v, nLayer, starts)
      {
        label before:
        SlabIn(nLayer, il, s, slots);
        AppendOne(k, v, Slab(nLayer, il, s), starts[s], batch[s], nLayer, il);
        forall il': nat, s': nat | il' < nLayer && s' < |batch| && (il' < il || (il' == il && s' < s + 1))
          ensures Stored(k, v, nLayer, starts, batch, il', s')
        {
          if il' != il || s' != s {
            assert old@before(Stored(k, v, nLayer, starts, batch, il', s'));
            if Slab(nLayer, il, s) == Slab(nLayer, il', s') { SlabsApart(nLayer, il, s, il', s'); }
            forall i: nat | i < |batch[s']| ensures RowIs(k, v, nLayer, il', s', starts[s'] + i, batch[s'][i][il']) {
              assert old@before(RowIs(k, v, nLayer, il', s', starts[s'] + i, batch[s'][i][il']));
            }
          }
        }
        forall il': nat, s': nat, p: nat, e: Entry
          | il' < nLayer && (s' < |starts| ==> p < starts[s']) && old(RowIs(k, v, nLayer, il', s', p, e))
          ensures RowIs(k, v, nLayer, il', s', p, e)
        {
          assert old@before(RowIs(k, v, nLayer, il', s', p, e));
          if Slab(nLayer, il, s) == Slab(nLayer, il', s') { SlabsApart(nLayer, il, s, il', s'); }
        }
      }
    }
  }

  /** Appending extends every history that was held, by that sequence's own tokens. */
  method AppendBatch(k: array2<Row>, v: array2<Row>, nLayer: nat, slots: nat, starts: seq<nat>, batch: seq<seq<Token>>,
                     ghost hist: seq<seq<Token>>)
    requires k != v && k.Length0 == v.Length0 == nLayer * slots && k.Length1 == v.Length1 && Batch(starts, batch, nLayer)
    requires |batch| <= slots && forall s | 0 <= s < |batch| :: starts[s] + |batch[s]| <= k.Length1
    requires |hist| == |batch| && forall s | 0 <= s < |batch| :: Shaped(hist[s], nLayer) && |hist[s]| == starts[s]
    modifies k, v
    ensures forall s: nat | s < |batch| && (hist[s] == [] || old(SeqHeld(k, v, nLayer, s, hist[s]))) ::
              SeqHeld(k, v, nLayer, s, hist[s] + batch[s])
    ensures Untouched(k, v, nLayer, starts)
  {
    AppendAll(k, v, nLayer, slots, starts, batch);
    forall s: nat | s < |batch| && (hist[s] == [] || old(SeqHeld(k, v, nLayer, s, hist[s])))
      ensures SeqHeld(k, v, nLayer, s, hist[s] + batch[s])
    {
      var now := hist[s] + batch[s];
      forall p: nat, il: nat | p < |now| && il < nLayer ensures RowIs(k, v, nLayer, il, s, p, now[p][il]) {
        if p < |hist[s]| {
          assert old(RowIs(k, v, nLayer, il, s, p, hist[s][p][il]));
        } else {
          var i: nat := p - |hist[s]|;
          assert Stored(k, v, nLayer, starts, batch, il, s);
          assert RowIs(k, v, nLayer, il, s, starts[s] + i, batch[s][i][il]);
        }
      }
    }
  }

  /** Double `start` until it covers `positions`, capped at the context length. */
  method Double(start: nat, positions: nat, context: nat) returns (grown: nat)
    requires start >= 1 && (positions <= context || positions <= start)
    ensures grown == Grown(start, positions, context)
  {
    grown := start;
    while grown < positions
      invariant grown >= 1 && Grown(grown, positions, context) == Grown(start, positions, context)
      decreases positions - grown
    {
      grown := Min(grown * 2, context);
    }
  }

  // ----- what a batch is refused for -----

  predicate Accepts(start: nat, n: nat, context: nat) { n > 0 && start + n <= context }

  /** The first refusal among the sequences below `n`. */
  function Refusal(starts: seq<nat>, batch: seq<seq<Token>>, context: nat, n: nat): Error
    requires |starts| == |batch| && n <= |batch|
  {
    if n == 0 then None
    else if Refusal(starts, batch, context, n - 1) != None then Refusal(starts, batch, context, n - 1)
    else if |batch[n - 1]| == 0 then NoTokens
    else if starts[n - 1] + |batch[n - 1]| > context then PastContext
    else None
  }

  lemma {:induction false} RefusalIff(starts: seq<nat>, batch: seq<seq<Token>>, context: nat, n: nat)
    requires |starts| == |batch| && n <= |batch|
    ensures Refusal(starts, batch, context, n) == None <==> forall s | 0 <= s < n :: Accepts(starts[s], |batch[s]|, context)
    ensures Refusal(starts, batch, context, n) in {None, NoTokens, PastContext}
  {
    if n > 0 { RefusalIff(starts, batch, context, n - 1); }
  }

  lemma {:induction false} RefusalSticks(starts: seq<nat>, batch: seq<seq<Token>>, context: nat, n: nat, m: nat)
    requires |starts| == |batch| && n <= m <= |batch| && Refusal(starts, batch, context, n) != None
    ensures Refusal(starts, batch, context, m) == Refusal(starts, batch, context, n)
  {
    if n < m { RefusalSticks(starts, batch, context, n, m - 1); }
  }

  /** The furthest position a batch reaches. */
  function MaxEnd(starts: seq<nat>, batch: seq<seq<Token>>, n: nat): (end: nat)
    requires |starts| == |batch| && n <= |batch|
    ensures forall s | 0 <= s < n :: starts[s] + |batch[s]| <= end
    ensures end == 0 || exists s | 0 <= s < n :: starts[s] + |batch[s]| == end
  {
    if n == 0 then 0 else Max(MaxEnd(starts, batch, n - 1), starts[n - 1] + |batch[n - 1]|)
  }

  method CheckBatch(starts: seq<nat>, batch: seq<seq<Token>>, context: nat) returns (error: Error, maxEnd: nat)
    requires |starts| == |batch|
    ensures error == Refusal(starts, batch, context, |batch|)
    ensures error == None ==> maxEnd == MaxEnd(starts, batch, |batch|) <= context
  {
    maxEnd := 0;
    for s := 0 to |batch|
      invariant Refusal(starts, batch, context, s) == None && maxEnd == MaxEnd(starts, batch, s) <= context
    {
      if |batch[s]| == 0 {
        RefusalSticks(starts, batch, context, s + 1, |batch|);
        return NoTokens, 0;
      }
      if starts[s] + |batch[s]| > context {
        RefusalSticks(starts, batch, context, s + 1, |batch|);
        return PastContext, 0;
      }
      if starts[s] + |batch[s]| > maxEnd {
        maxEnd := starts[s] + |batch[s]|;
      }
    }
    error := None;
  }

  function Ends(starts: seq<nat>, batch: seq<seq<Token>>): (ends: seq<nat>)
    requires |starts| == |batch|
    ensures |ends| == |batch| && forall s | 0 <= s < |batch| :: ends[s] == starts[s] + |batch[s]|
  {
    seq(|batch|, (s: nat) requires s < |batch| && |starts| == |batch| => starts[s] + |batch[s]|)
  }

  function Histories(hist: seq<seq<Token>>, n: nat): (r: seq<seq<Token>>)
    ensures |r| == n && forall s: nat | s < n :: r[s] == HistoryOf(hist, s)
  {
    seq(n, (s: nat) => HistoryOf(hist, s))
  }

  function Extended(hist: seq<seq<Token>>, batch: seq<seq<Token>>): (now: seq<seq<Token>>)
    requires |hist| == |batch|
    ensures |now| == |batch| && forall s | 0 <= s < |batch| :: now[s] == hist[s] + batch[s]
  {
    seq(|batch|, (s: nat) requires s < |batch| && |hist| == |batch| => hist[s] + batch[s])
  }

  /** A carried sequence's rows are where the forward pass looks for them. */
  lemma SeqCarried(grownK: array2<Row>, grownV: array2<Row>, k: array2<Row>, v: array2<Row>, nLayer: nat, slots: nat,
                   nSeq: nat, rows: nat, s: nat, hist: seq<Token>)
    requires nSeq >= 1 && Shaped(hist, nLayer) && SeqHeld(k, v, nLayer, s, hist) && s < nSeq && hist != []
    requires k.Length0 == v.Length0 == nLayer * slots && k.Length1 == v.Length1 == rows
    requires grownK.Length0 == grownV.Length0 == nLayer * nSeq
    requires CopiedBefore(grownK, k, nLayer, slots, nSeq, rows, nLayer, 0)
    requires CopiedBefore(grownV, v, nLayer, slots, nSeq, rows, nLayer, 0)
    requires forall il: nat | il < nLayer :: Survives(nLayer, slots, nSeq, Slab(nLayer, il, s))
    ensures SeqHeld(grownK, grownV, nLayer, s, hist)
  {
    forall p: nat, il: nat | p < |hist| && il < nLayer ensures RowIs(grownK, grownV, nLayer, il, s, p, hist[p][il]) {
      assert RowIs(k, v, nLayer, il, s, p, hist[p][il]);
      var t := Slab(nLayer, il, s);
      SlotOf(nLayer, slots, il, s);
      SlabIn(nLayer, il, s, Min(slots, nSeq));
      CopiedInPlace(nLayer, slots, nSeq, t);
      SlabIn(nLayer, il, s, nSeq);
      FlatUnit(t, nLayer, nSeq, 1);
      assert SlabCopied(grownK, k, t, t, rows) && SlabCopied(grownV, v, t, t, rows);
    }
  }

  /** A slab inside the allocation belongs to a slot inside it. */
  lemma SlotOf(nLayer: nat, slots: nat, il: nat, s: nat)
    requires il < nLayer && Slab(nLayer, il, s) < nLayer * slots
    ensures s < slots
  {
    MulMono(slots, s, nLayer);
  }

  // ----- the model's cache -----

  class Cache {
    const nLayer: nat
    const context: nat
    var k: array2?<Row>
    var v: array2?<Row>
    var capacity: nat
    var slots: nat
    var seqLen: seq<nat>
    var ropeRows: nat
    /** What every live sequence has been given. */
    ghost var hist: seq<seq<Token>>

    ghost predicate Valid()
      reads this, k, v
    {
      && nLayer >= 1 && context >= 1 && |seqLen| >= 1 && |hist| == |seqLen|
      && (forall s | 0 <= s < |hist| :: |hist[s]| == seqLen[s] <= context && Shaped(hist[s], nLayer))
      && (k == null <==> v == null)
      && (k == null ==> capacity == 0 && slots == 0)
      && (k != null && v != null ==>
            k != v && k.Length0 == v.Length0 == nLayer * slots && k.Length1 == v.Length1 == capacity
            && capacity >= INITIAL_POSITIONS && slots >= 1)
      && 1 <= ropeRows && Min(INITIAL_POSITIONS, context) <= ropeRows <= context
    }

    /** The cache holds exactly what sequence `s` was given, in every layer and at
        every position below its length. */
    ghost predicate Holds(s: nat)
      requires s < |hist| && Shaped(hist[s], nLayer)
      reads this, k, v
    {
      hist[s] == [] || (k != null && v != null && SeqHeld(k, v, nLayer, s, hist[s]))
    }

    ghost predicate Faithful()
      reads this, k, v
    {
      Valid() && forall s | 0 <= s < |hist| :: Holds(s)
    }

    /** This call would not grow the slabs. */
    predicate Fits(positions: nat, nSeq: nat)
      reads this
    {
      k != null && positions <= capacity && nSeq <= slots
    }

    constructor (nLayer: nat, context: nat)
      requires nLayer >= 1 && context >= 1
      ensures Faithful() && k == null && v == null && seqLen == [0] && this.nLayer == nLayer && this.context == context
    {
      this.nLayer, this.context := nLayer, context;
      k, v, capacity, slots := null, null, 0, 0;
      seqLen, hist := [0], [[]];
      ropeRows := Min(INITIAL_POSITIONS, context);
    }

    /** Back to one empty sequence; the slabs stay. */
    method Reset()
      requires Valid()
      modifies `seqLen, `hist
      ensures Faithful() && seqLen == [0]
    {
      seqLen, hist := [0], [[]];
    }

    /** Sequence `s` keeps its slab numbers across a growth to `nSeq` slots. */
    ghost predicate Carried(nSeq: nat, s: nat)
      reads this
    {
      s < nSeq && forall il: nat | il < nLayer :: Survives(nLayer, slots, nSeq, Slab(nLayer, il, s))
    }

    /** `ensure_kv`. */
    method EnsureKv(positions: nat, nSeq: nat)
      requires Valid() && nSeq >= 1 && positions <= context
      modifies `k, `v, `capacity, `slots
      ensures Valid() && Fits(positions, nSeq)
      ensures old(Fits(positions, nSeq)) ==> k == old(k) && v == old(v) && capacity == old(capacity) && slots == old(slots)
      ensures !old(Fits(positions, nSeq)) ==>
                fresh(k) && fresh(v) && slots == nSeq
                && capacity == Grown(Max(old(capacity), 256), positions, context)
      ensures forall s | 0 <= s < |hist| && old(Holds(s)) && (old(Fits(positions, nSeq)) || old(Carried(nSeq, s))) :: Holds(s)
    {
      if k != null && positions <= capacity && nSeq <= slots {
        return;
      }
      var grown := Double(Max(capacity, INITIAL_POSITIONS), positions, context);
      MulSign(nLayer, nSeq);
      var grownK := new Row[nLayer * nSeq, grown];
      var grownV := new Row[nLayer * nSeq, grown];
      if k != null && v != null {
        CopySlabs(grownK, k, nLayer, slots, nSeq, Min(capacity, grown));
        CopySlabs(grownV, v, nLayer, slots, nSeq, Min(capacity, grown));
        forall s | 0 <= s < |hist| && Holds(s) && Carried(nSeq, s)
          ensures hist[s] == [] || SeqHeld(grownK, grownV, nLayer, s, hist[s])
        {
          if hist[s] != [] {
            SeqCarried(grownK, grownV, k, v, nLayer, slots, nSeq, capacity, s, hist[s]);
          }
        }
      }
      k, v := grownK, grownV;
      capacity, slots := grown, nSeq;
    }

    /** `grow_rope_table`: the rotary table keeps a row for every position. */
    method GrowRope(positions: nat)
      requires Valid() && positions <= context
      modifies `ropeRows
      ensures Valid() && positions <= ropeRows && old(ropeRows) <= ropeRows
    {
      if positions <= ropeRows {
        return;
      }
      ropeRows := Double(ropeRows, positions, context);
    }

    /** Where the sequences of a batch continue from. */
    predicate Continues(starts: seq<nat>)
      reads this
    {
      forall s: nat | s < |starts| :: starts[s] == LengthOf(seqLen, s)
    }

    /** The writes of one forward pass, and the new lengths. */
    method Append(starts: seq<nat>, batch: seq<seq<Token>>, ghost positions: nat)
      requires Valid() && |batch| >= 1 && Batch(starts, batch, nLayer) && Continues(starts) && Fits(positions, |batch|)
      requires forall s | 0 <= s < |batch| :: starts[s] + |batch[s]| <= positions <= context
      modifies `seqLen, `hist, k, v
      ensures Valid()
      ensures |seqLen| == |batch| && forall s | 0 <= s < |batch| :: seqLen[s] == starts[s] + |batch[s]|
      ensures forall s | 0 <= s < |batch| :: hist[s] == HistoryOf(old(hist), s) + batch[s]
      ensures forall s | 0 <= s < |batch| && (s < |old(hist)| ==> old(Holds(s))) :: Holds(s)
    {
      ghost var was := Histories(hist, |batch|);
      AppendBatch(k, v, nLayer, slots, starts, batch, was);
      seqLen := Ends(starts, batch);
      hist := Extended(was, batch);
    }

    /** The end of a batch, and whether it is reached without growing. */
    predicate Ready(starts: seq<nat>, batch: seq<seq<Token>>)
      requires |starts| == |batch|
      reads this
    {
      Fits(MaxEnd(starts, batch, |batch|), |batch|)
    }

    /** Sequence `s` comes through this batch with its history. */
    ghost predicate Safe(starts: seq<nat>, batch: seq<seq<Token>>, s: nat)
      requires |starts| == |batch| && |seqLen| == |hist| && forall i | 0 <= i < |hist| :: Shaped(hist[i], nLayer)
      reads this, k, v
    {
      HistoryOf(hist, s) == [] || (s < |hist| && Holds(s) && (Ready(starts, batch) || Carried(|batch|, s)))
    }

    /** An accepted batch: make room, then append. */
    method Advance(starts: seq<nat>, batch: seq<seq<Token>>, maxEnd: nat)
      requires Valid() && |batch| >= 1 && Batch(starts, batch, nLayer) && Continues(starts)
      requires maxEnd == MaxEnd(starts, batch, |batch|) <= context
      modifies this, k, v
      ensures Valid()
      ensures |seqLen| == |batch| && forall s | 0 <= s < |batch| :: seqLen[s] == starts[s] + |batch[s]|
      ensures forall s | 0 <= s < |batch| :: hist[s] == HistoryOf(old(hist), s) + batch[s]
      ensures Fits(maxEnd, |batch|) && maxEnd <= ropeRows
      ensures old(Ready(starts, batch)) ==> k == old(k) && v == old(v) && capacity == old(capacity) && slots == old(slots)
      ensures !old(Ready(starts, batch)) ==> fresh(k) && fresh(v) && slots == |batch|
      ensures forall s | 0 <= s < |batch| && old(Safe(starts, batch, s)) :: Holds(s)
    {
      EnsureKv(maxEnd, |batch|);
      GrowRope(maxEnd);
      Append(starts, batch, maxEnd);
    }

    /** `forward_impl`, the bookkeeping of a batch.  A refusal changes nothing.
        Otherwise every sequence of the batch has grown by its own tokens, its slab
        and its rotary rows cover it, and its history is held if it was and no growth
        displaced it. */
    method ForwardImpl(starts: seq<nat>, batch: seq<seq<Token>>) returns (error: Error)
      requires Valid() && |batch| >= 1 && Batch(starts, batch, nLayer) && Continues(starts)
      modifies this, k, v
      ensures Valid() && error == Refusal(starts, batch, context, |batch|)
      ensures error != None ==> unchanged(this) && (k != null ==> unchanged(k)) && (v != null ==> unchanged(v))
      ensures error == None ==>
                && |seqLen| == |batch| && (forall s | 0 <= s < |batch| :: seqLen[s] == starts[s] + |batch[s]|)
                && (forall s | 0 <= s < |batch| :: hist[s] == HistoryOf(old(hist), s) + batch[s])
                && Ready(starts, batch) && MaxEnd(starts, batch, |batch|) <= ropeRows
      ensures old(Ready(starts, batch)) ==> k == old(k) && v == old(v) && capacity == old(capacity) && slots == old(slots)
      ensures error == None && !old(Ready(starts, batch)) ==> fresh(k) && fresh(v) && slots == |batch|
      ensures error == None ==> forall s | 0 <= s < |batch| && old(Safe(starts, batch, s)) :: Holds(s)
    {
      var maxEnd;
      error, maxEnd := CheckBatch(starts, batch, context);
      if error == None {
        Advance(starts, batch, maxEnd);
      }
    }

    /** The single-sequence path: the position must be the cache's own length. */
    method Forward(tokens: seq<Token>, startPos: nat) returns (error: Error)
      requires Faithful() && slots <= 1 && Shaped(tokens, nLayer)
      modifies this, k, v
      ensures Faithful() && slots <= 1
      ensures error == (if startPos != old(seqLen[0]) then WrongPosition
                        else if |tokens| == 0 then NoTokens
                        else if startPos + |tokens| > context then PastContext else None)
      ensures error == None ==> hist == [old(hist[0]) + tokens] && startPos + |tokens| <= ropeRows
      ensures error != None ==> unchanged(this)
      ensures k == old(k) || fresh(k)
      ensures v == old(v) || fresh(v)
    {
      if startPos != seqLen[0] {
        return WrongPosition;
      }
      ghost var held := Holds(0);
      assert held && (k == null ==> hist[0] == []);
      assert Carried(1, 0) || slots == 0;
      error := ForwardImpl([startPos], [tokens]);
    }

    /** A batch continues every sequence from its own length, zero if it is new. */
    method ForwardBatch(batch: seq<seq<Token>>) returns (error: Error)
      requires Valid() && forall s | 0 <= s < |batch| :: Shaped(batch[s], nLayer)
      modifies this, k, v
      ensures Valid()
      ensures error == (if |batch| == 0 then NoSequence
                        else Refusal(old(Starts(|batch|)), batch, context, |batch|))
      ensures error != None ==> unchanged(this) && (k != null ==> unchanged(k)) && (v != null ==> unchanged(v))
      ensures error == None ==>
                && |hist| == |batch| && (forall s | 0 <= s < |batch| :: hist[s] == HistoryOf(old(hist), s) + batch[s])
                && MaxEnd(old(Starts(|batch|)), batch, |batch|) <= ropeRows
      ensures old(Ready(Starts(|batch|), batch)) ==> k == old(k) && v == old(v) && capacity == old(capacity) && slots == old(slots)
      ensures error == None ==> forall s | 0 <= s < |batch| && old(Safe(Starts(|batch|), batch, s)) :: Holds(s)
      ensures old(Faithful()) && old(Ready(Starts(|batch|), batch)) ==> Faithful()
      ensures k == old(k) || fresh(k)
      ensures v == old(v) || fresh(v)
    {
      if |batch| == 0 {
        return NoSequence;
      }
      error := ForwardImpl(Starts(|batch|), batch);
    }

    function Starts(n: nat): (starts: seq<nat>)
      reads this
      ensures |starts| == n && forall s: nat | s < n :: starts[s] == LengthOf(seqLen, s)
    {
      var lens := seqLen;
      seq(n, (s: nat) => LengthOf(lens, s))
    }

    /** `reserve`: afterwards the window and the slots are there.  Slabs already big
        enough are kept; otherwise they are replaced by empty ones, so a history
        survives only if it was empty. */
    method Reserve(positions: int, wanted: int) returns (error: Error)
      requires Valid()
      modifies `k, `v, `capacity, `slots, `ropeRows
      ensures Valid()
      ensures error == (if positions <= 0 || wanted <= 0 then BadReservation
                        else if positions > context then PastContext else None)
      ensures error != None ==> unchanged(this)
      ensures error == None ==> Fits(positions, wanted)
      ensures error == None && old(Fits(positions, wanted)) ==> unchanged(this)
      ensures error == None && !old(Fits(positions, wanted)) ==>
                fresh(k) && fresh(v) && slots == wanted && positions <= ropeRows
                && capacity == Grown(Max(old(capacity), 256), positions, context)
      ensures forall s | 0 <= s < |hist| && old(Holds(s)) && (hist[s] == [] || k == old(k)) :: Holds(s)
    {
      if positions <= 0 || wanted <= 0 {
        return BadReservation;
      }
      if positions > context {
        return PastContext;
      }
      error := None;
      var grown := Double(Max(capacity, INITIAL_POSITIONS), positions, context);
      if k != null && grown <= capacity && wanted <= slots {
        return;
      }
      MulSign(nLayer, wanted);
      k := new Row[nLayer * wanted, grown];
      v := new Row[nLayer * wanted, grown];
      capacity, slots := grown, wanted;
      GrowRope(positions);
    }
  }

  // ----- runs -----

  datatype Op = Forward(tokens: seq<Token>, startPos: nat) | Reset

  /** What a single-sequence cache has been given after one more operation. */
  function Replay(h: seq<Token>, op: Op, context: nat): seq<Token> {
    match op
    case Reset => []
    case Forward(tokens, startPos) =>
      if startPos == |h| && |tokens| > 0 && startPos + |tokens| <= context then h + tokens else h
  }

  function ReplayAll(ops: seq<Op>, n: nat, context: nat): seq<Token>
    requires n <= |ops|
  {
    if n == 0 then [] else Replay(ReplayAll(ops, n - 1, context), ops[n - 1], context)
  }

  /** Main result: over every run of single-sequence calls and resets, whatever
      growths it crosses, the cache holds for every layer and every position below the
      current length exactly the row appended there. */
  method RunSingle(nLayer: nat, context: nat, ops: seq<Op>) returns (cache: Cache)
    requires nLayer >= 1 && context >= 1
    requires forall i | 0 <= i < |ops| && ops[i].Forward? :: Shaped(ops[i].tokens, nLayer)
    ensures fresh(cache) && cache.Faithful() && cache.slots <= 1
    ensures cache.hist == [ReplayAll(ops, |ops|, context)]
  {
    cache := new Cache(nLayer, context);
    for i := 0 to |ops|
      invariant fresh(cache) && cache.nLayer == nLayer && cache.context == context
      invariant cache.k == null || fresh(cache.k)
      invariant cache.v == null || fresh(cache.v)
      invariant cache.Faithful() && cache.slots <= 1
      invariant cache.hist == [ReplayAll(ops, i, context)]
    {
      match ops[i] {
        case Reset =>
          cache.Reset();
        case Forward(tokens, startPos) =>
          var error := cache.Forward(tokens, startPos);
      }
    }
  }

  /** The lengths after one batch that ends inside the window. */
  function NextLengths(lens: seq<nat>, batch: seq<seq<Token>>): seq<nat> {
    if forall s | 0 <= s < |batch| :: |batch[s]| > 0 then seq(|batch|, (s: nat) requires s < |batch| => LengthOf(lens, s) + |batch[s]|)
    else lens
  }

  /** What the sequences have been given after one more batch. */
  function NextHist(hist: seq<seq<Token>>, batch: seq<seq<Token>>): seq<seq<Token>> {
    if forall s | 0 <= s < |batch| :: |batch[s]| > 0 then Extended(Histories(hist, |batch|), batch) else hist
  }

  /** What the sequences have been given after the run. */
  function BatchReplay(hist: seq<seq<Token>>, batches: seq<seq<seq<Token>>>): seq<seq<Token>>
    decreases |batches|
  {
    if batches == [] then hist
    else BatchReplay(NextHist(hist, batches[0]), batches[1..])
  }

  /** Every batch of the run has at most `S` sequences and ends at or below `P`. */
  predicate RunFits(lens: seq<nat>, batches: seq<seq<seq<Token>>>, P: nat, S: nat)
    decreases |batches|
  {
    batches == []
    || (1 <= |batches[0]| <= S
        && (forall s | 0 <= s < |batches[0]| :: LengthOf(lens, s) + |batches[0][s]| <= P)
        && RunFits(NextLengths(lens, batches[0]), batches[1..], P, S))
  }

  /** Inside the window only an empty sequence is refused. */
  lemma WindowRefusal(starts: seq<nat>, batch: seq<seq<Token>>, P: nat, context: nat)
    requires |starts| == |batch| && P <= context && forall s | 0 <= s < |batch| :: starts[s] + |batch[s]| <= P
    ensures MaxEnd(starts, batch, |batch|) <= P
    ensures Refusal(starts, batch, context, |batch|) == None <==> forall s | 0 <= s < |batch| :: |batch[s]| > 0
  {
    RefusalIff(starts, batch, context, |batch|);
  }

  /** The sequences after an accepted batch, recognised entry by entry. */
  lemma NextIs(lens: seq<nat>, was: seq<seq<Token>>, batch: seq<seq<Token>>, now: seq<nat>, hist: seq<seq<Token>>)
    requires |lens| == |was| && (forall s | 0 <= s < |was| :: |was[s]| == lens[s])
    requires |now| == |hist| == |batch| && (forall s | 0 <= s < |hist| :: |hist[s]| == now[s])
    requires forall s | 0 <= s < |batch| :: |batch[s]| > 0 && hist[s] == HistoryOf(was, s) + batch[s]
    ensures now == NextLengths(lens, batch) && hist == NextHist(was, batch)
  {
  }

  /** One batch inside the window. */
  method StepReserved(cache: Cache, P: nat, S: nat, batch: seq<seq<Token>>)
    requires cache.Valid() && cache.Fits(P, S) && P <= cache.context && 1 <= |batch| <= S
    requires forall s | 0 <= s < |batch| :: LengthOf(cache.seqLen, s) + |batch[s]| <= P && Shaped(batch[s], cache.nLayer)
    modifies cache, cache.k, cache.v
    ensures cache.Valid() && cache.Fits(P, S) && (old(cache.Faithful()) ==> cache.Faithful())
    ensures cache.k == old(cache.k) && cache.v == old(cache.v)
    ensures cache.capacity == old(cache.capacity) && cache.slots == old(cache.slots)
    ensures cache.seqLen == NextLengths(old(cache.seqLen), batch)
    ensures cache.hist == NextHist(old(cache.hist), batch)
  {
    ghost var starts := cache.Starts(|batch|);
    WindowRefusal(starts, batch, P, cache.context);
    ghost var lens, was := cache.seqLen, cache.hist;
    var error := cache.ForwardBatch(batch);
    if error == None { NextIs(lens, was, batch, cache.seqLen, cache.hist); }
  }

  /** Main result: once `P` positions and `S` slots are reserved, no run of batches of
      at most `S` sequences that end at or below `P` reaches the growth branch: the
      slabs are the same ones at the end and every sequence has been given exactly its
      own tokens; a cache that held its histories at the start still does. */
  method RunReserved(cache: Cache, P: nat, S: nat, batches: seq<seq<seq<Token>>>)
    requires cache.Valid() && cache.Fits(P, S) && P <= cache.context && RunFits(cache.seqLen, batches, P, S)
    requires forall i, s | 0 <= i < |batches| && 0 <= s < |batches[i]| :: Shaped(batches[i][s], cache.nLayer)
    modifies cache, cache.k, cache.v
    ensures cache.Valid() && cache.Fits(P, S) && (old(cache.Faithful()) ==> cache.Faithful())
    ensures cache.k == old(cache.k) && cache.v == old(cache.v)
    ensures cache.capacity == old(cache.capacity) && cache.slots == old(cache.slots)
    ensures cache.hist == BatchReplay(old(cache.hist), batches)
    decreases |batches|
  {
    if batches != [] {
      StepReserved(cache, P, S, batches[0]);
      RunReserved(cache, P, S, batches[1..]);
    }
  }
}
