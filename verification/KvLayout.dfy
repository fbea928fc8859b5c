/** Where a row of the KV cache lives, and which slabs a growth carries to the right
    place. */
module KvLayout {
  import opened Arith

  /** The slab the forward pass uses for layer `il` of sequence `s`. */
  function Slab(nLayer: nat, il: nat, s: nat): nat { il + nLayer * s }

  /** Slabs of a cache of `slots` sequences are in bounds, and no two `(layer,
      sequence)` pairs share one. */
  lemma SlabIn(nLayer: nat, il: nat, s: nat, slots: nat)
    requires il < nLayer && s < slots
    ensures Slab(nLayer, il, s) < nLayer * slots
  {
    FlatIn(s, il, slots, nLayer);
  }

  lemma SlabsApart(nLayer: nat, il: nat, s: nat, il': nat, s': nat)
    requires il < nLayer && il' < nLayer && Slab(nLayer, il, s) == Slab(nLayer, il', s')
    ensures il == il' && s == s'
  {
    Flat(s, il, nLayer);
    Flat(s', il', nLayer);
  }

  /** The flat row offset the forward pass computes: a layer term and a sequence
      term. */
  function RowOffset(capacity: nat, nLayer: nat, il: nat, s: nat, p: nat): nat {
    capacity * il + capacity * nLayer * s + p
  }

  /** Flat rows of distinct `(layer, sequence, position)` triples never coincide, and
      all lie inside the allocation. */
  lemma RowsDisjoint(capacity: nat, nLayer: nat, slots: nat, il: nat, s: nat, p: nat, il': nat, s': nat, p': nat)
    requires il < nLayer && s < slots && p < capacity && il' < nLayer && s' < slots && p' < capacity
    ensures RowOffset(capacity, nLayer, il, s, p) < nLayer * slots * capacity
    ensures RowOffset(capacity, nLayer, il, s, p) == RowOffset(capacity, nLayer, il', s', p') <==> il == il' && s == s' && p == p'
  {
    var t, t' := Slab(nLayer, il, s), Slab(nLayer, il', s');
    RowIsFlat(capacity, nLayer, il, s, p);
    RowIsFlat(capacity, nLayer, il', s', p');
    SlabIn(nLayer, il, s, slots);
    FlatIn(t, p, nLayer * slots, capacity);
    Flat(t, p, capacity);
    Flat(t', p', capacity);
    if t == t' { SlabsApart(nLayer, il, s, il', s'); }
  }

  lemma RowIsFlat(capacity: nat, nLayer: nat, il: nat, s: nat, p: nat)
    ensures RowOffset(capacity, nLayer, il, s, p) == Slab(nLayer, il, s) * capacity + p
  {
    assert capacity * nLayer * s == (nLayer * s) * capacity;
    assert (il + nLayer * s) * capacity == il * capacity + (nLayer * s) * capacity;
  }

  // ----- growth -----

  function Min(a: nat, b: nat): nat { if a < b then a else b }
  function Max(a: nat, b: nat): nat { if a < b then b else a }

  /** The slab a growth from `oldSlots` to `nSeq` slots copies into slab `t`, if any: the
      copy counts slabs as `layer * slots + slot`. */
  function CopiedFrom(nLayer: nat, oldSlots: nat, nSeq: nat, t: nat): (from: int)
    requires nSeq >= 1
    ensures from >= -1
  {
    MulSign(t / nSeq, oldSlots);
    if t / nSeq < nLayer && t % nSeq < Min(oldSlots, nSeq) then (t / nSeq) * oldSlots + t % nSeq else -1
  }

  /** The copy and the forward pass count slabs alike for slab `t`: all of them when
      the slot count does not change, otherwise only those below both counts. */
  predicate Survives(nLayer: nat, oldSlots: nat, nSeq: nat, t: nat) {
    oldSlots == nSeq || t < Min(oldSlots, nSeq)
  }

  /** A slab the new allocation has lies in one of its layers. */
  lemma InLayer(nLayer: nat, oldSlots: nat, nSeq: nat, t: nat)
    requires nSeq >= 1 && t < nLayer * Min(oldSlots, nSeq)
    ensures t / nSeq < nLayer && t == t / nSeq * nSeq + t % nSeq && 0 <= t % nSeq < nSeq
  {
    DivMod(t, nSeq);
    MulMono(Min(oldSlots, nSeq), nSeq, nLayer);
    DivIff(t, nSeq, nLayer - 1);
    assert (nLayer - 1) * nSeq + nSeq == nLayer * nSeq;
  }

  /** The condition, said of layer and slot. */
  lemma PlaceIff(layer: nat, slot: nat, oldSlots: nat, nSeq: nat, from: int)
    requires slot < nSeq && from == if slot < Min(oldSlots, nSeq) then layer * oldSlots + slot else -1
    ensures from == layer * nSeq + slot <==> oldSlots == nSeq || layer * nSeq + slot < Min(oldSlots, nSeq)
  {
    MulSign(layer, nSeq);
    if layer > 0 {
      MulMono(1, layer, nSeq);
      if oldSlots != nSeq { Different(layer, oldSlots, nSeq); }
    }
  }

  lemma CopiedInPlace(nLayer: nat, oldSlots: nat, nSeq: nat, t: nat)
    requires nSeq >= 1 && t < nLayer * Min(oldSlots, nSeq)
    ensures CopiedFrom(nLayer, oldSlots, nSeq, t) == t <==> Survives(nLayer, oldSlots, nSeq, t)
  {
    InLayer(nLayer, oldSlots, nSeq, t);
    PlaceIff(t / nSeq, t % nSeq, oldSlots, nSeq, CopiedFrom(nLayer, oldSlots, nSeq, t));
  }

  lemma Different(layer: nat, a: nat, b: nat)
    requires layer >= 1 && a != b
    ensures layer * a != layer * b
  {
    MulMono(a, b, layer);
    MulMono(b, a, layer);
  }

  /** What a growth may leave: every copied slab holds its source, the rest anything. */
  ghost predicate Grows(was: nat -> nat, now: nat -> nat, nLayer: nat, oldSlots: nat, nSeq: nat)
    requires nSeq >= 1
  {
    forall t: nat | CopiedFrom(nLayer, oldSlots, nSeq, t) >= 0 :: now(t) == was(CopiedFrom(nLayer, oldSlots, nSeq, t))
  }

  /** Main result: a slab that held history still holds it after a growth, whatever the
      rows were, if and only if the slot count did not change or the slab lies below
      both slot counts. */
  lemma CarriedIff(nLayer: nat, oldSlots: nat, nSeq: nat, t: nat)
    requires nSeq >= 1 && t < nLayer * Min(oldSlots, nSeq)
    ensures (forall was: nat -> nat, now: nat -> nat | Grows(was, now, nLayer, oldSlots, nSeq) :: now(t) == was(t))
       <==> Survives(nLayer, oldSlots, nSeq, t)
  {
    CopiedInPlace(nLayer, oldSlots, nSeq, t);
    if !Survives(nLayer, oldSlots, nSeq, t) {
      var was: nat -> nat := x => x;
      var now: nat -> nat := (x: nat) =>
        if CopiedFrom(nLayer, oldSlots, nSeq, x) >= 0 then CopiedFrom(nLayer, oldSlots, nSeq, x) as nat else t + 1;
      assert Grows(was, now, nLayer, oldSlots, nSeq);
      assert now(t) != was(t);
    }
  }

  /** A single-sequence call after a batch of two, on a model of two layers: growing
      then moves layer 1 of the sequence. */
  lemma BatchThenSingleLosesLayers()
    ensures !Survives(2, 2, 1, Slab(2, 1, 0)) && CopiedFrom(2, 2, 1, Slab(2, 1, 0)) == 2
  {
  }

  /** The doubling both growth loops do, capped at the context length. */
  function Grown(start: nat, positions: nat, context: nat): (grown: nat)
    requires start >= 1 && (positions <= context || positions <= start)
    ensures grown >= positions && start <= grown <= Max(start, context)
    ensures positions <= start ==> grown == start
    decreases positions - start
  {
    if start < positions then Grown(Min(start * 2, context), positions, context) else start
  }

  /** Main result: a growth stops at the first power-of-two multiple of the start that
      reaches the positions, or at the context length if that comes sooner. */
  lemma {:induction false} GrownIsLeastDoubling(start: nat, positions: nat, context: nat) returns (k: nat)
    requires 1 <= start && (positions <= context || positions <= start)
    ensures positions <= start ==> k == 0 && Grown(start, positions, context) == start
    ensures positions > start ==> k >= 1 && start * Pow2(k - 1) < positions <= context
    ensures positions > start ==> Grown(start, positions, context)
                                  == (if start * Pow2(k) < context then start * Pow2(k) else context)
    decreases positions - start
  {
    k := 0;
    if start < positions {
      assert Pow2(1) == 2;
      k := 1;
      if 2 * start < positions {
        var j := GrownIsLeastDoubling(2 * start, positions, context);
        k := j + 1;
        assert start * Pow2(j + 1) == 2 * start * Pow2(j) by { Twice(start, Pow2(j)); }
        assert start * Pow2(j) == 2 * start * Pow2(j - 1) by { Twice(start, Pow2(j - 1)); }
      }
    }
  }

  lemma Twice(a: nat, p: nat)
    ensures a * (2 * p) == 2 * a * p
  {
  }
}
