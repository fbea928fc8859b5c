/** How a parallel call cuts `[0, total)` into chunks, and why the order in which
    the chunks run cannot be seen in memory. */
module Partition {
  import opened Arith

  /** The number of contiguous ranges a job splits into: one range per `grain`
      units, but never more than there are threads. */
  function PartitionSize(total: int, grain: int, threads: int): (chunks: int)
    requires grain >= 1
    ensures chunks == 0 <==> total <= 0 || threads <= 0
    ensures 0 < chunks ==> chunks <= threads && chunks <= total
    ensures 0 < chunks ==> (chunks - 1) * grain < total && (chunks < threads ==> total <= chunks * grain)
  {
    if total <= 0 || threads <= 0 then 0 else
      var wanted := (total + grain - 1) / grain;
      CeilingBounds(total, grain);
      var chunks := if wanted < 1 then 1 else wanted;
      MulMono(threads - 1, wanted - 1, grain);
      if chunks < threads then chunks else threads
  }

  lemma CeilingBounds(total: int, grain: int)
    requires grain >= 1 && total >= 1
    ensures var w := (total + grain - 1) / grain;
            1 <= w <= total && (w - 1) * grain < total <= w * grain
  {
    var w := (total + grain - 1) / grain;
    DivMod(total + grain - 1, grain);
    DivIff(total + grain - 1, grain, 1);
    DivIff(total + grain - 1, grain, total);
    MulMono(1, grain, total);
    assert (w - 1) * grain == w * grain - grain;
  }

  /** Where chunk `c` starts; it ends where chunk `c + 1` starts. */
  function Lo(total: nat, chunks: nat, c: nat): nat
    requires chunks >= 1
  {
    total * c / chunks
  }

  /** The chunk that runs unit `x`. */
  function ChunkOf(total: nat, chunks: nat, x: nat): int
    requires 1 <= chunks && x < total
  {
    ((x + 1) * chunks - 1) / total
  }

  /** The ranges are non-empty, they start at 0 and end at `total`, and every
      unit lies in exactly one of them. */
  lemma RangesTile(total: nat, chunks: nat)
    requires 1 <= chunks <= total
    ensures Lo(total, chunks, 0) == 0 && Lo(total, chunks, chunks) == total
    ensures forall c: nat, e: nat | c < chunks && e == c + 1 :: Lo(total, chunks, c) < Lo(total, chunks, e)
    ensures forall e: nat | e <= chunks :: Lo(total, chunks, e) <= total
    ensures forall x: nat, c: nat | x < total && c < chunks ::
              Lo(total, chunks, c) <= x < Lo(total, chunks, c + 1) <==> c == ChunkOf(total, chunks, x)
    ensures forall x: nat | x < total :: 0 <= ChunkOf(total, chunks, x) < chunks
  {
    EndsAt(total, chunks);
    forall c: nat, e: nat | c < chunks && e == c + 1
      ensures Lo(total, chunks, c) < Lo(total, chunks, e)
    {
      RangeGrows(total, chunks, c, e);
    }
    forall e: nat | e <= chunks ensures Lo(total, chunks, e) <= total {
      if e > 0 { RangeGrows(total, chunks, e - 1, e); }
    }
    forall x: nat, c: nat | x < total && c < chunks
      ensures Lo(total, chunks, c) <= x < Lo(total, chunks, c + 1) <==> c == ChunkOf(total, chunks, x)
    {
      RangeHolds(total, chunks, x, c);
    }
    forall x: nat | x < total
      ensures 0 <= ChunkOf(total, chunks, x) < chunks
    {
      ChunkInRange(total, chunks, x);
    }
  }

  lemma EndsAt(total: nat, chunks: nat)
    requires 1 <= chunks
    ensures Lo(total, chunks, 0) == 0 && Lo(total, chunks, chunks) == total
  {
    assert total * 0 == 0;
    DivIs(0, chunks, 0, 0);
    DivIs(total * chunks, chunks, total, 0);
  }

  lemma RangeGrows(total: nat, chunks: nat, c: nat, e: nat)
    requires 1 <= chunks <= total && c < chunks && e == c + 1
    ensures Lo(total, chunks, c) < Lo(total, chunks, e) <= total
  {
    assert total * e == total * c + total;
    MulMono(e, chunks, total);
    QuotientGrows(total * c, total * e, chunks, total);
  }

  lemma QuotientGrows(a: nat, b: nat, chunks: nat, total: nat)
    requires 1 <= chunks <= total && b == a + total && b <= chunks * total
    ensures a / chunks < b / chunks <= total
  {
    var q := a / chunks;
    DivIff(a, chunks, q);
    DivIff(b, chunks, q + 1);
    DivIff(b, chunks, total);
  }

  lemma ChunkInRange(total: nat, chunks: nat, x: nat)
    requires 1 <= chunks && x < total
    ensures 0 <= ChunkOf(total, chunks, x) < chunks
  {
    MulMono(x + 1, total, chunks);
    MulMono(1, x + 1, chunks);
    QuotientInside((x + 1) * chunks - 1, total, chunks);
  }

  lemma QuotientInside(p: int, b: int, n: int)
    requires b >= 1 && 0 <= p < b * n
    ensures 0 <= p / b < n
  {
    assert (n - 1) * b + b == b * n;
    DivIff(p, b, n - 1);
    DivIff(p, b, 0);
  }

  lemma RangeStarts(total: nat, chunks: nat, x: nat, c: nat)
    requires 1 <= chunks && x < total
    ensures Lo(total, chunks, c) <= x <==> c <= ChunkOf(total, chunks, x)
  {
    var a, p := total * c, (x + 1) * chunks - 1;
    assert (x + 1) * chunks == x * chunks + chunks && c * total == a;
    DivIff(a, chunks, x);
    DivIff(p, total, c);
  }

  lemma RangeHolds(total: nat, chunks: nat, x: nat, c: nat)
    requires 1 <= chunks && x < total
    ensures Lo(total, chunks, c) <= x < Lo(total, chunks, c + 1) <==> c == ChunkOf(total, chunks, x)
  {
    RangeStarts(total, chunks, x, c);
    RangeStarts(total, chunks, x, c + 1);
  }

  /** The ranges are as even as they can be: none is shorter than the quotient rounded
      down or longer than the quotient rounded up. */
  lemma RangesAreEven(total: nat, chunks: nat, c: nat)
    requires 1 <= chunks
    ensures total / chunks <= Lo(total, chunks, c + 1) - Lo(total, chunks, c) <= (total + chunks - 1) / chunks
  {
    assert total * (c + 1) == total * c + total;
    StepIsEven(total * c, total * (c + 1), total, chunks);
  }

  lemma StepIsEven(a: nat, b: nat, total: nat, chunks: nat)
    requires 1 <= chunks && b == a + total
    ensures total / chunks <= b / chunks - a / chunks <= (total + chunks - 1) / chunks
  {
    var p, q := a / chunks, b / chunks;
    DivMod(a, chunks);
    DivMod(b, chunks);
    assert (q - p) * chunks == q * chunks - p * chunks;
    DivIff(total, chunks, q - p);
    DivIff(total + chunks - 1, chunks, q - p);
  }

  /** Chunk-private scratch: chunk `c` writes `size` cells from `c * size`, so two
      chunks never share one and the last one ends inside the buffer. */
  lemma ScratchDisjoint(chunks: nat, size: nat, c: nat, i: nat, c': nat, i': nat)
    requires c < chunks && c' < chunks && i < size && i' < size
    ensures c * size + i < chunks * size
    ensures c * size + i == c' * size + i' <==> c == c' && i == i'
  {
    FlatIn(c, i, chunks, size);
    Flat(c, i, size);
    Flat(c', i', size);
  }

  /** A kernel body: iteration `i` writes the cells `own(i)` that it owns, and nothing else;
      it reads those and the cells that nobody in the call writes, such as shared inputs. */
  ghost predicate Independent<V(!new)>(n: nat, own: nat -> set<nat>, body: (nat, map<nat, V>) -> map<nat, V>)
  {
    && (forall i: nat, j: nat | i < j < n :: own(i) !! own(j))
    && (forall i: nat, m: map<nat, V> | i < n :: body(i, m).Keys == own(i))
    && (forall i: nat, m: map<nat, V>, m': map<nat, V> | i < n && SameInputs(n, own, i, m, m') ::
          body(i, m) == body(i, m'))
  }

  /** The two memories agree on all that iteration `i` may read. */
  ghost predicate SameInputs<V(!new)>(n: nat, own: nat -> set<nat>, i: nat, m: map<nat, V>, m': map<nat, V>)
  {
    forall a | a in own(i) || Shared(n, own, a) :: SameAt(a, m, m')
  }

  /** Nobody in the call writes cell `a`. */
  ghost predicate Shared(n: nat, own: nat -> set<nat>, a: nat) { forall j: nat | j < n :: a !in own(j) }

  predicate SameAt<V(==)>(a: nat, m: map<nat, V>, m': map<nat, V>)
  {
    (a in m <==> a in m') && (a in m ==> m[a] == m'[a])
  }

  /** The memory after running the iterations of `order` one after another. */
  function Execute<V>(order: seq<nat>, body: (nat, map<nat, V>) -> map<nat, V>, mem: map<nat, V>): map<nat, V>
    decreases |order|
  {
    if order == [] then mem
    else Execute(order[1..], body, mem + body(order[0], mem))
  }

  /** The memory every order must leave: an owned cell holds what its owner
      computes from the initial memory, and no other cell moves. */
  ghost predicate Final<V(!new)>(ran: set<nat>, own: nat -> set<nat>, body: (nat, map<nat, V>) -> map<nat, V>,
                                 mem: map<nat, V>, out: map<nat, V>)
  {
    && (forall i, a | i in ran && a in own(i) :: a in body(i, mem) && a in out && out[a] == body(i, mem)[a])
    && (forall a | (forall i | i in ran :: a !in own(i)) ::
          (a in out <==> a in mem) && (a in mem ==> out[a] == mem[a]))
  }

  ghost predicate Distinct(order: seq<nat>) {
    forall i, j | 0 <= i < j < |order| :: order[i] != order[j]
  }

  function Ran(order: seq<nat>): set<nat> {
    set i | i in order
  }

  /** An iteration cannot see whether another one has already run. */
  lemma Unseen<V(!new)>(n: nat, own: nat -> set<nat>, body: (nat, map<nat, V>) -> map<nat, V>, mem: map<nat, V>,
                        first: nat, i: nat)
    requires Independent(n, own, body) && first < n && i < n && i != first
    ensures own(i) !! own(first) && body(i, mem + body(first, mem)) == body(i, mem)
  {
    var mid := mem + body(first, mem);
    assert body(first, mem).Keys == own(first);
    if i < first { assert own(i) !! own(first); } else { assert own(first) !! own(i); }
    assert SameInputs(n, own, i, mid, mem);
  }

  /** A cell no iteration owns keeps its contents. */
  lemma Untouched<V(!new)>(ran: set<nat>, own: nat -> set<nat>, step: map<nat, V>, body: (nat, map<nat, V>) -> map<nat, V>,
                           mem: map<nat, V>, first: nat, out: map<nat, V>, a: nat)
    requires step.Keys == own(first) && Final(ran, own, body, mem + step, out)
    requires a !in own(first) && forall i | i in ran :: a !in own(i)
    ensures (a in out <==> a in mem) && (a in mem ==> out[a] == mem[a])
  {
    assert a in mem + step <==> a in mem;
  }

  /** What `first` wrote is not overwritten. */
  lemma FirstLasts<V(!new)>(ran: set<nat>, own: nat -> set<nat>, step: map<nat, V>, body: (nat, map<nat, V>) -> map<nat, V>,
                            mem: map<nat, V>, first: nat, out: map<nat, V>, a: nat)
    requires step.Keys == own(first) && Final(ran, own, body, mem + step, out)
    requires a in own(first) && forall i | i in ran :: own(i) !! own(first)
    ensures a in out && out[a] == step[a]
  {
    assert forall i | i in ran :: a !in own(i);
    assert a in mem + step;
  }

  /** Running `first` and then the iterations `ran`, to which it is invisible, is
      running all of them. */
  lemma Prepend<V(!new)>(own: nat -> set<nat>, body: (nat, map<nat, V>) -> map<nat, V>, mem: map<nat, V>,
                         first: nat, step: map<nat, V>, ran: set<nat>, out: map<nat, V>)
    requires step == body(first, mem) && step.Keys == own(first)
    requires forall i | i in ran :: own(i) !! own(first) && body(i, mem + step) == body(i, mem)
    requires Final(ran, own, body, mem + step, out)
    ensures Final(ran + {first}, own, body, mem, out)
  {
    forall a | forall i | i in ran + {first} :: a !in own(i)
      ensures (a in out <==> a in mem) && (a in mem ==> out[a] == mem[a])
    {
      assert first in ran + {first};
      assert forall i | i in ran :: i in ran + {first};
      Untouched(ran, own, step, body, mem, first, out, a);
    }
    forall a | a in own(first) ensures a in out && out[a] == step[a] {
      FirstLasts(ran, own, step, body, mem, first, out, a);
    }
  }

  /** Whatever order the iterations run in -- chunk by chunk, chunks permuted, or
      interleaved between threads -- the memory at the end is the same one. */
  lemma {:induction false} OrderIsInvisible<V(!new)>(n: nat, own: nat -> set<nat>, body: (nat, map<nat, V>) -> map<nat, V>,
                                        mem: map<nat, V>, order: seq<nat>)
    requires Independent(n, own, body)
    requires Distinct(order) && forall i | i in order :: i < n
    ensures Final(Ran(order), own, body, mem, Execute(order, body, mem))
    decreases |order|
  {
    if order == [] {
    } else {
      var first, rest := order[0], order[1..];
      assert first in order && first !in rest && forall i | i in rest :: i in order;
      OrderIsInvisible(n, own, body, mem + body(first, mem), rest);
      forall i | i in Ran(rest)
        ensures own(i) !! own(first) && body(i, mem + body(first, mem)) == body(i, mem)
      {
        Unseen(n, own, body, mem, first, i);
      }
      assert body(first, mem).Keys == own(first);
      Prepend(own, body, mem, first, body(first, mem), Ran(rest), Execute(order, body, mem));
      assert order == [first] + rest;
      assert Ran(order) == Ran(rest) + {first};
    }
  }

  /** Two schedules of the same iterations leave the same memory, so the parallel
      call leaves what the serial loop leaves. */
  lemma SchedulesAgree<V(!new)>(n: nat, own: nat -> set<nat>, body: (nat, map<nat, V>) -> map<nat, V>,
                                mem: map<nat, V>, one: seq<nat>, two: seq<nat>)
    requires Independent(n, own, body)
    requires Distinct(one) && Distinct(two)
    requires forall i: nat :: (i in one <==> i < n) && (i in two <==> i < n)
    ensures Execute(one, body, mem) == Execute(two, body, mem)
  {
    OrderIsInvisible(n, own, body, mem, one);
    OrderIsInvisible(n, own, body, mem, two);
    assert Ran(one) == Ran(two);
    FinalIsUnique(Ran(one), own, body, mem, Execute(one, body, mem), Execute(two, body, mem));
  }

  lemma FinalIsUnique<V(!new)>(ran: set<nat>, own: nat -> set<nat>, body: (nat, map<nat, V>) -> map<nat, V>,
                               mem: map<nat, V>, x: map<nat, V>, y: map<nat, V>)
    requires Final(ran, own, body, mem, x) && Final(ran, own, body, mem, y)
    ensures x == y
  {
    forall a: nat
      ensures (a in x <==> a in y) && (a in x ==> x[a] == y[a])
    {
      if exists i | i in ran :: a in own(i) {
        var i :| i in ran && a in own(i);
      }
    }
    assert x.Keys == y.Keys;
  }
}
