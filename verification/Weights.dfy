/** Who owns a device buffer: binding, materialising packed weights, and destruction
    never release an allocation twice, whatever handles the allocator hands out
    again. */
module Weights {

  /** A device buffer.  `serial` says which allocation it is; the program itself only
      ever compares handles. */
  datatype Buffer = Buffer(handle: nat, serial: nat)

  const NONE := Buffer(0, 0)

  datatype Use = Embedding | Gemm

  datatype Weight = Weight(data: Buffer, blocks: Buffer, quantized: bool, rows: nat, packedReleased: bool)

  const UNBOUND := Weight(NONE, NONE, false, 0, false)

  lemma {:induction false} SomeHandleIsFree(used: set<nat>)
    ensures exists h: nat :: h != 0 && h !in used
  {
    var bound := Above(used);
    assert bound + 1 != 0 && bound + 1 !in used;
  }

  ghost function Above(used: set<nat>): (b: nat)
    ensures forall h | h in used :: h <= b
  {
    if used == {} then 0
    else
      var h :| h in used;
      var b := Above(used - {h});
      assert forall k | k in used :: k == h || k in used - {h};
      if h < b then b else h
  }

  /** The backend's memory: which allocation each live handle is, and which decoded
      forms have been filed. */
  class Device {
    var live: map<nat, nat>
    var next: nat
    ghost var decoded: set<(nat, Use)>

    ghost predicate Valid()
      reads this
    {
      0 !in live && forall h | h in live :: live[h] < next
    }

    constructor ()
      ensures Valid() && live == map[] && decoded == {}
    {
      live, next, decoded := map[], 1, {};
    }

    /** Any handle that is not live, so possibly one released before. */
    method Allocate() returns (b: Buffer)
      requires Valid()
      modifies this
      ensures Valid() && b.handle != 0 && b.handle !in old(live) && live == old(live)[b.handle := b.serial]
      ensures b.serial == old(next) && next == old(next) + 1 && decoded == old(decoded)
    {
      SomeHandleIsFree(live.Keys);
      var h: nat :| h != 0 && h !in live;
      b := Buffer(h, next);
      live, next := live[h := next], next + 1;
    }

    /** Only the allocation itself may be released, and only while it is live. */
    method Release(b: Buffer)
      requires Valid() && IsLive(b, live)
      modifies this
      ensures Valid() && live == old(live) - {b.handle} && next == old(next) && decoded == old(decoded)
    {
      live := live - {b.handle};
    }

    /** Decode from bytes that are still there. */
    method MaterializePacked(b: Buffer, use: Use)
      requires Valid() && IsLive(b, live)
      modifies this
      ensures Valid() && live == old(live) && next == old(next) && decoded == old(decoded) + {(b.serial, use)}
    {
      decoded := decoded + {(b.serial, use)};
    }

    /** The packed bytes go only when every form they must still provide exists. */
    method ReleasePacked(b: Buffer, ghost uses: set<Use>)
      requires Valid() && IsLive(b, live) && forall u | u in uses :: (b.serial, u) in decoded
      modifies this
      ensures Valid() && live == old(live) - {b.handle} && next == old(next) && decoded == old(decoded)
    {
      live := live - {b.handle};
    }
  }

  predicate IsLive(b: Buffer, live: map<nat, nat>) { b.handle in live && live[b.handle] == b.serial }

  /** `same_buffer`: the form and both handles. */
  predicate SameBuffer(a: Weight, b: Weight) {
    a.quantized == b.quantized && a.data.handle == b.data.handle && a.blocks.handle == b.blocks.handle
  }

  /** What `release_weight` would free, if anything. */
  function Kept(w: Weight): Buffer {
    if w.quantized then (if w.packedReleased then NONE else w.blocks) else w.data
  }

  /** The buffer a bound weight was given, released or not. */
  function Given(w: Weight): Buffer { if w.quantized then w.blocks else w.data }

  const TABLE := 0
  const HEAD := 1

  /** The head is released on its own: it is bound and is not the table's buffer. */
  predicate SeparateHead(slots: seq<Weight>)
    requires |slots| >= 2
  {
    slots[HEAD].rows != 0 && !SameBuffer(slots[HEAD], slots[TABLE])
  }

  /** What the destructor frees for slot `i`. */
  function Owed(slots: seq<Weight>, i: nat): Buffer
    requires 2 <= |slots| && i < |slots|
  {
    if i == HEAD && !SeparateHead(slots) then NONE else Kept(slots[i])
  }

  ghost predicate Mentions(bufs: seq<Buffer>, h: nat) {
    exists i :: 0 <= i < |bufs| && bufs[i].handle == h && h != 0
  }

  /** Every buffer in the list is live, and no two are the same. */
  ghost predicate Owned(bufs: seq<Buffer>, live: map<nat, nat>) {
    && (forall i | 0 <= i < |bufs| && bufs[i].handle != 0 :: IsLive(bufs[i], live))
    && forall i, j | 0 <= i < j < |bufs| && bufs[i].handle != 0 :: bufs[i].handle != bufs[j].handle
  }

  /** And what is live is the list and what was live at the start, which is still there. */
  ghost predicate Accounts(bufs: seq<Buffer>, live: map<nat, nat>, start: map<nat, nat>) {
    && Owned(bufs, live) && 0 !in live
    && (forall h :: h in live <==> h in start || Mentions(bufs, h))
    && forall h | h in start :: !Mentions(bufs, h) && live[h] == start[h]
  }

  ghost function OwedAll(slots: seq<Weight>): (bufs: seq<Buffer>)
    requires |slots| >= 2
    ensures |bufs| == |slots| && forall i: nat | i < |slots| :: bufs[i] == Owed(slots, i)
  {
    seq(|slots|, (i: nat) requires i < |slots| => Owed(slots, i))
  }

  /** Dropping an entry and its handle keeps the accounts. */
  lemma Drop(bufs: seq<Buffer>, live: map<nat, nat>, start: map<nat, nat>, i: nat)
    requires Accounts(bufs, live, start) && i < |bufs|
    ensures Accounts(bufs[i := NONE], live - {bufs[i].handle}, start)
  {
    var now, h0 := bufs[i := NONE], bufs[i].handle;
    forall k | 0 <= k < |now| && now[k].handle != 0 ensures IsLive(now[k], live - {h0}) {
      assert k != i && now[k] == bufs[k];
      if k < i { assert bufs[k].handle != h0; }
    }
    forall h ensures Mentions(now, h) <==> Mentions(bufs, h) && h != h0 {
      if Mentions(bufs, h) && h != h0 {
        var k :| 0 <= k < |bufs| && bufs[k].handle == h && h != 0;
        assert now[k].handle == h;
      }
      if Mentions(now, h) {
        var k :| 0 <= k < |now| && now[k].handle == h && h != 0;
        assert bufs[k].handle == h && k != i;
      }
    }
    if h0 != 0 { assert bufs[i].handle == h0; }
    assert forall h :: h in live - {h0} <==> h in live && h != h0;
    assert Mentions(bufs, h0) || h0 == 0;
  }

  /** A new allocation takes an empty entry. */
  lemma Add(bufs: seq<Buffer>, live: map<nat, nat>, start: map<nat, nat>, i: nat, b: Buffer)
    requires Accounts(bufs, live, start) && i < |bufs| && bufs[i].handle == 0 && b.handle != 0 && b.handle !in live
    ensures Accounts(bufs[i := b], live[b.handle := b.serial], start)
  {
    var now := bufs[i := b];
    forall h ensures Mentions(now, h) <==> Mentions(bufs, h) || h == b.handle {
      if Mentions(bufs, h) {
        var k :| 0 <= k < |bufs| && bufs[k].handle == h && h != 0;
        assert now[k].handle == h;
      }
      assert now[i].handle == b.handle;
    }
  }

  /** Or a new one, anywhere in the list. */
  lemma Insert(bufs: seq<Buffer>, live: map<nat, nat>, start: map<nat, nat>, n: nat, b: Buffer)
    requires Accounts(bufs, live, start) && n <= |bufs| && b.handle != 0 && b.handle !in live
    ensures Accounts(bufs[..n] + [b] + bufs[n..], live[b.handle := b.serial], start)
  {
    var now := bufs[..n] + [b] + bufs[n..];
    InsertedAt(bufs, now, n, b);
    InsertOwned(bufs, now, live, n, b);
    InsertMentions(bufs, now, n, b);
  }

  ghost predicate IsInserted(bufs: seq<Buffer>, now: seq<Buffer>, n: nat, b: Buffer) {
    && n <= |bufs| && |now| == |bufs| + 1 && now[n] == b
    && (forall i | 0 <= i < n :: now[i] == bufs[i]) && forall i | n < i < |now| :: now[i] == bufs[i - 1]
  }

  lemma InsertedAt(bufs: seq<Buffer>, now: seq<Buffer>, n: nat, b: Buffer)
    requires n <= |bufs| && now == bufs[..n] + [b] + bufs[n..]
    ensures IsInserted(bufs, now, n, b)
  {
  }

  lemma InsertOwned(bufs: seq<Buffer>, now: seq<Buffer>, live: map<nat, nat>, n: nat, b: Buffer)
    requires Owned(bufs, live) && IsInserted(bufs, now, n, b) && b.handle != 0 && b.handle !in live
    ensures Owned(now, live[b.handle := b.serial])
  {
  }

  lemma InsertMentions(bufs: seq<Buffer>, now: seq<Buffer>, n: nat, b: Buffer)
    requires IsInserted(bufs, now, n, b) && b.handle != 0
    ensures forall h :: Mentions(now, h) <==> Mentions(bufs, h) || h == b.handle
  {
    forall h ensures Mentions(now, h) <==> Mentions(bufs, h) || h == b.handle {
      if Mentions(bufs, h) {
        var k :| 0 <= k < |bufs| && bufs[k].handle == h && h != 0;
        assert now[if k < n then k else k + 1].handle == h;
      }
      assert now[n].handle == b.handle;
    }
  }

  /** The last entry moves into an empty one. */
  lemma MoveLast(bufs: seq<Buffer>, live: map<nat, nat>, start: map<nat, nat>, i: nat, b: Buffer)
    requires i < |bufs| && Accounts(bufs[i := NONE] + [b], live, start)
    ensures Accounts(bufs[i := b], live, start)
  {
    var was, now := bufs[i := NONE] + [b], bufs[i := b];
    assert was[|bufs|] == b && was[i] == NONE;
    forall k | 0 <= k < |bufs| && k != i ensures now[k] == was[k] {
    }
    forall h ensures Mentions(now, h) <==> Mentions(was, h) {
      if Mentions(was, h) {
        var k :| 0 <= k < |was| && was[k].handle == h && h != 0;
        assert now[if k == |bufs| then i else k].handle == h;
      }
      if Mentions(now, h) {
        var k :| 0 <= k < |now| && now[k].handle == h && h != 0;
        assert was[if k == i then |bufs| else k].handle == h;
      }
    }
  }

  lemma AddLast(bufs: seq<Buffer>, live: map<nat, nat>, start: map<nat, nat>, b: Buffer)
    requires Accounts(bufs, live, start) && b.handle != 0 && b.handle !in live
    ensures Accounts(bufs + [b], live[b.handle := b.serial], start)
  {
    Insert(bufs, live, start, |bufs|, b);
    assert bufs[..|bufs|] + [b] + bufs[|bufs|..] == bufs + [b];
  }

  /** Two new caches take the places of the two given up. */
  lemma Swapped(bufs: seq<Buffer>, live: map<nat, nat>, start: map<nat, nat>, k: Buffer, v: Buffer)
    requires |bufs| >= 4 && Accounts((bufs + [k] + [v])[K_CACHE := NONE][V_CACHE := NONE], live, start)
    ensures Accounts(bufs[K_CACHE := k][V_CACHE := v], live, start)
  {
    var one := bufs[K_CACHE := NONE] + [k];
    assert (bufs + [k] + [v])[K_CACHE := NONE][V_CACHE := NONE] == one[V_CACHE := NONE] + [v];
    MoveLast(one, live, start, V_CACHE, v);
    assert one[V_CACHE := v] == bufs[V_CACHE := v][K_CACHE := NONE] + [k];
    MoveLast(bufs[V_CACHE := v], live, start, K_CACHE, k);
    assert bufs[V_CACHE := v][K_CACHE := k] == bufs[K_CACHE := k][V_CACHE := v];
  }

  /** A change of one entry of a part is that change of the whole. */
  lemma InMiddle(a: seq<Buffer>, b: seq<Buffer>, c: seq<Buffer>, i: nat, x: Buffer)
    requires i < |b|
    ensures a + b[i := x] + c == (a + b + c)[|a| + i := x]
  {
  }

  /** Dropping an entry of a part. */
  lemma DropMiddle(a: seq<Buffer>, b: seq<Buffer>, c: seq<Buffer>, live: map<nat, nat>, start: map<nat, nat>, i: nat)
    requires Accounts(a + b + c, live, start) && i < |b|
    ensures Accounts(a + b[i := NONE] + c, live - {b[i].handle}, start)
    ensures b[i].handle != 0 ==> IsLive(b[i], live)
  {
    assert (a + b + c)[|a| + i] == b[i];
    Drop(a + b + c, live, start, |a| + i);
    InMiddle(a, b, c, i, NONE);
  }

  lemma AtEnd(a: seq<Buffer>, b: seq<Buffer>, c: seq<Buffer>, i: nat, x: Buffer)
    requires i < |c|
    ensures a + b + c[i := x] == (a + b + c)[|a| + |b| + i := x]
  {
  }

  /** Empty entries in front do not matter. */
  lemma DropFront(bufs: seq<Buffer>, live: map<nat, nat>, start: map<nat, nat>, n: nat)
    requires Accounts(bufs, live, start) && n <= |bufs| && forall k | 0 <= k < n :: bufs[k].handle == 0
    ensures Accounts(bufs[n..], live, start)
  {
    var now := bufs[n..];
    forall h ensures Mentions(now, h) <==> Mentions(bufs, h) {
      if Mentions(bufs, h) {
        var k :| 0 <= k < |bufs| && bufs[k].handle == h && h != 0;
        assert now[k - n].handle == h;
      }
      if Mentions(now, h) {
        var k :| 0 <= k < |now| && now[k].handle == h && h != 0;
        assert bufs[k + n].handle == h;
      }
    }
  }

  /** Owning nothing leaves the device as it was. */
  lemma NothingOwned(bufs: seq<Buffer>, live: map<nat, nat>, start: map<nat, nat>)
    requires Accounts(bufs, live, start) && forall k | 0 <= k < |bufs| :: bufs[k].handle == 0
    ensures live == start
  {
    assert live.Keys == start.Keys;
  }

  /** How many entries hold a buffer. */
  function Held(bufs: seq<Buffer>): (n: nat)
    ensures n == 0 <==> forall k | 0 <= k < |bufs| :: bufs[k].handle == 0
  {
    if bufs == [] then 0
    else
      var n := |bufs| - 1;
      assert bufs[..n] + [bufs[n]] == bufs;
      Held(bufs[..n]) + if bufs[n].handle == 0 then 0 else 1
  }

  lemma {:induction false} HeldAll(bufs: seq<Buffer>)
    requires forall k | 0 <= k < |bufs| :: bufs[k].handle != 0
    ensures Held(bufs) == |bufs|
    decreases |bufs|
  {
    if bufs != [] { HeldAll(bufs[..|bufs| - 1]); }
  }

  lemma {:induction false} HeldBoth(a: seq<Buffer>, b: seq<Buffer>)
    ensures Held(a + b) == Held(a) + Held(b)
    decreases |b|
  {
    if b == [] {
      assert a + b == a;
    } else {
      assert (a + b)[..|a + b| - 1] == a + b[..|b| - 1];
      HeldBoth(a, b[..|b| - 1]);
    }
  }

  /** Every buffer of the list is one live allocation more. */
  lemma {:induction false} CountOwned(bufs: seq<Buffer>, live: map<nat, nat>, start: map<nat, nat>)
    requires Accounts(bufs, live, start)
    ensures |live| == |start| + Held(bufs)
    decreases |bufs|
  {
    if bufs == [] {
      NothingOwned(bufs, live, start);
    } else {
      var n, h := |bufs| - 1, bufs[|bufs| - 1].handle;
      if h == 0 {
        RemoveEmpty(bufs, live, start, n);
        assert bufs[..n] + bufs[n + 1..] == bufs[..n];
        CountOwned(bufs[..n], live, start);
      } else {
        assert IsLive(bufs[n], live);
        Drop(bufs, live, start, n);
        RemoveEmpty(bufs[n := NONE], live - {h}, start, n);
        assert bufs[n := NONE][..n] + bufs[n := NONE][n + 1..] == bufs[..n];
        CountOwned(bufs[..n], live - {h}, start);
        OneLess(live, h);
      }
    }
  }

  lemma OneLess(live: map<nat, nat>, h: nat)
    requires h in live
    ensures |live - {h}| == |live| - 1
  {
    var rest := live - {h};
    assert live.Keys == rest.Keys + {h};
    assert |live| == |live.Keys| && |rest| == |rest.Keys|;
  }

  /** An empty entry does not matter. */
  lemma RemoveEmpty(bufs: seq<Buffer>, live: map<nat, nat>, start: map<nat, nat>, n: nat)
    requires Accounts(bufs, live, start) && n < |bufs| && bufs[n].handle == 0
    ensures Accounts(bufs[..n] + bufs[n + 1..], live, start)
  {
    var now := bufs[..n] + bufs[n + 1..];
    RemovedAt(bufs, now, n);
    RemovedMentions(bufs, now, n);
  }

  lemma RemovedAt(bufs: seq<Buffer>, now: seq<Buffer>, n: nat)
    requires n < |bufs| && now == bufs[..n] + bufs[n + 1..]
    ensures IsInserted(now, bufs, n, bufs[n])
  {
  }

  lemma RemovedMentions(bufs: seq<Buffer>, now: seq<Buffer>, n: nat)
    requires n < |bufs| && bufs[n].handle == 0 && IsInserted(now, bufs, n, bufs[n])
    ensures forall h :: Mentions(now, h) <==> Mentions(bufs, h)
  {
    forall h ensures Mentions(now, h) <==> Mentions(bufs, h) {
      if Mentions(bufs, h) {
        var k :| 0 <= k < |bufs| && bufs[k].handle == h && h != 0;
        assert now[if k < n then k else k - 1].handle == h;
      }
      if Mentions(now, h) {
        var k :| 0 <= k < |now| && now[k].handle == h && h != 0;
        assert bufs[if k < n then k else k + 1].handle == h;
      }
    }
  }

  /** Entry `n` has moved up to place `p`. */
  ghost predicate IsMoved(was: seq<Buffer>, now: seq<Buffer>, n: nat, p: nat) {
    && p <= n < |was| == |now| && now[p] == was[n]
    && (forall i | 0 <= i < p || n < i < |was| :: now[i] == was[i])
    && (forall i | p <= i < n :: now[i + 1] == was[i])
    && forall i | p < i <= n :: now[i] == was[i - 1]
  }

  lemma MovedOwned(was: seq<Buffer>, now: seq<Buffer>, n: nat, p: nat, live: map<nat, nat>)
    requires IsMoved(was, now, n, p) && Owned(was, live)
    ensures Owned(now, live)
  {
    forall i, j | 0 <= i < j < |now| && now[i].handle != 0 ensures now[i].handle != now[j].handle {
      var i', j' := Origin(i, n, p), Origin(j, n, p);
      assert now[i] == was[i'] && now[j] == was[j'] && i' != j';
      if i' > j' && was[j'].handle != 0 { assert was[j'].handle != was[i'].handle; }
    }
    forall i | 0 <= i < |now| && now[i].handle != 0 ensures IsLive(now[i], live) {
      assert now[i] == was[Origin(i, n, p)];
    }
  }

  /** Where the entry at `i` stood before. */
  function Origin(i: nat, n: nat, p: nat): nat { if i == p then n else if p < i <= n then i - 1 else i }

  lemma MovedMentions(was: seq<Buffer>, now: seq<Buffer>, n: nat, p: nat)
    requires IsMoved(was, now, n, p)
    ensures forall h :: Mentions(now, h) <==> Mentions(was, h)
  {
    forall h ensures Mentions(now, h) <==> Mentions(was, h) {
      if Mentions(was, h) {
        var k :| 0 <= k < |was| && was[k].handle == h && h != 0;
        assert now[if k == n then p else if p <= k < n then k + 1 else k].handle == h;
      }
      if Mentions(now, h) {
        var k :| 0 <= k < |now| && now[k].handle == h && h != 0;
        assert was[Origin(k, n, p)].handle == h;
      }
    }
  }

  /** A buffer changes its place in the list. */
  lemma Relocate(a: seq<Buffer>, b: seq<Buffer>, x: Buffer, c: seq<Buffer>, live: map<nat, nat>, start: map<nat, nat>)
    requires Accounts(a + b + [x] + c, live, start)
    ensures Accounts(a + [x] + b + c, live, start)
  {
    var was, now := a + b + [x] + c, a + [x] + b + c;
    MovedShape(a, b, x, c);
    MovedOwned(was, now, |a| + |b|, |a|, live);
    MovedMentions(was, now, |a| + |b|, |a|);
  }

  lemma MovedShape(a: seq<Buffer>, b: seq<Buffer>, x: Buffer, c: seq<Buffer>)
    ensures IsMoved(a + b + [x] + c, a + [x] + b + c, |a| + |b|, |a|)
  {
  }

  lemma Split(a: seq<Buffer>, x: Buffer, b: seq<Buffer>)
    requires forall k | 0 <= k < |a + [x] + b| :: (a + [x] + b)[k].handle != 0
    ensures x.handle != 0 && forall k | 0 <= k < |a + b| :: (a + b)[k].handle != 0
  {
    var all := a + [x] + b;
    assert all[|a|] == x;
    forall k | 0 <= k < |a + b| ensures (a + b)[k].handle != 0 {
      assert (a + b)[k] == all[if k < |a| then k else k + 1];
    }
  }

  /** The end of the list, when only what precedes it was given up. */
  lemma TailIs(bufs: seq<Buffer>, a: seq<Buffer>, b: seq<Buffer>, c: seq<Buffer>, d: seq<Buffer>, k: nat)
    requires k <= |c| && |bufs| == |a| + |b| + |c| + |d|
    requires forall i | |a| + |b| + k <= i < |bufs| :: bufs[i] == (a + b + (c + d))[i]
    ensures bufs[|a| + |b| + k..] == c[k..] + d
  {
  }

  /** The decoded forms a slot's packed bytes feed: the table gathers embeddings, and a
      tied head multiplies by the same bytes; every other weight only multiplies. */
  function Consumers(slots: seq<Weight>, i: nat): set<Use>
    requires 2 <= |slots| && i < |slots|
  {
    if i == TABLE then {Embedding} + (if Tied(slots) then {Gemm} else {}) else {Gemm}
  }

  predicate Tied(slots: seq<Weight>)
    requires |slots| >= 2
  {
    slots[HEAD].rows != 0 && SameBuffer(slots[HEAD], slots[TABLE])
  }

  /** A slot as binding leaves it: a packed weight has packed bytes, an unbound head has
      nothing. */
  predicate Bound(w: Weight) {
    && (w.quantized ==> w.blocks.handle != 0 && w.data.handle == 0)
    && (!w.quantized ==> w.blocks.handle == 0 && !w.packedReleased)
  }

  /** The table, a head that is bound, unbound or tied as a whole, and the matrices. */
  ghost predicate Shaped(slots: seq<Weight>) {
    && |slots| >= 2 && (forall i | 0 <= i < |slots| :: Bound(slots[i]))
    && (slots[HEAD].rows == 0 ==> slots[HEAD] == UNBOUND)
    && (Tied(slots) ==> slots[HEAD] == slots[TABLE])
  }

  /** Marking a slot of its own takes its bytes off what is owed. */
  lemma SlotGone(slots: seq<Weight>, i: nat)
    requires Shaped(slots) && i < |slots| && i != TABLE && slots[i].quantized && !slots[i].packedReleased
    requires i == HEAD ==> SeparateHead(slots)
    ensures var now := slots[i := slots[i].(packedReleased := true)];
            && Shaped(now) && OwedAll(now) == OwedAll(slots)[i := NONE] && OwedAll(slots)[i] == slots[i].blocks
            && slots[i].blocks.handle != 0
  {
    var now := slots[i := slots[i].(packedReleased := true)];
    assert SeparateHead(now) == SeparateHead(slots);
    assert OwedAll(now) == OwedAll(slots)[i := NONE];
  }

  /** So does marking the table, together with a head tied to it. */
  lemma TableGone(slots: seq<Weight>, now: seq<Weight>)
    requires Shaped(slots) && slots[TABLE].quantized && !slots[TABLE].packedReleased
    requires var table := slots[TABLE].(packedReleased := true);
             now == if Tied(slots) then slots[TABLE := table][HEAD := table] else slots[TABLE := table]
    ensures Shaped(now) && OwedAll(now) == OwedAll(slots)[TABLE := NONE] && OwedAll(slots)[TABLE] == slots[TABLE].blocks
    ensures slots[TABLE].blocks.handle != 0 && Tied(now) == Tied(slots)
  {
    assert SeparateHead(now) == SeparateHead(slots);
    assert OwedAll(now) == OwedAll(slots)[TABLE := NONE];
  }

  // Where the buffers that are no weights stand; the norms follow.
  const ROPE_COS := 0  // the sines are next to it
  const K_CACHE := 2
  const V_CACHE := 3

  /** How many of a batch's buffers the destructor's list names: the activations, the
      logits, the scores, the token ids and the two panel buffers, but neither the two
      per-token rotary tables nor the deepstack planes that follow. */
  const LISTED := 15

  /** The same allocation and form, released or not. */
  predicate SameBinding(w: Weight, was: Weight) { Given(w) == Given(was) && FormOf(w) == FormOf(was) }

  /** `bufs` is `was` less the entries `[lo, hi)`. */
  ghost predicate Without(bufs: seq<Buffer>, was: seq<Buffer>, lo: nat, hi: nat) {
    |bufs| == |was| && forall k | 0 <= k < |was| :: bufs[k] == if lo <= k < hi then NONE else was[k]
  }

  /** The destructor's passes, over `n` others, `m` weights and the first of the batch,
      leave only what stands behind those. */
  lemma PassesCover(all: seq<Buffer>, one: seq<Buffer>, two: seq<Buffer>, three: seq<Buffer>, bufs: seq<Buffer>, n: nat, m: nat)
    requires m >= 2 && |bufs| == |all| >= n + m + LISTED
    requires Without(one, all, n + m, n + m + LISTED) && Without(two, one, 0, n) && Without(three, two, n + 2, n + m)
    requires forall k | 0 <= k < |all| :: if n <= k < n + 2 then bufs[k].handle == 0 else bufs[k] == three[k]
    ensures forall k | 0 <= k < n + m + LISTED :: bufs[k].handle == 0
    ensures forall k | n + m + LISTED <= k < |all| :: bufs[k] == all[k]
  {
    forall k | 0 <= k < n + m + LISTED ensures bufs[k].handle == 0 {
      if !(n <= k < n + 2) { assert bufs[k] == three[k]; }
    }
  }

  /** A packed weight has given its bytes up, the table's embeddings and every other
      weight's products are decoded, and so are the products of a head tied to the table. */
  ghost predicate SettledIn(slots: seq<Weight>, decoded: set<(nat, Use)>, i: nat)
    requires |slots| >= 2 && i < |slots|
  {
    slots[i].quantized ==>
      && slots[i].packedReleased
      && (i == 0 ==> (slots[i].blocks.serial, Embedding) in decoded)
      && (i != 0 || (slots[1].rows != 0 && slots[1].blocks == slots[0].blocks) ==>
            (slots[i].blocks.serial, Gemm) in decoded)
  }

  /** What the local of a layer holds. */
  datatype Piece = NormPiece(b: Buffer) | MatrixPiece(w: Weight)

  function BufferOf(p: Piece): Buffer { if p.NormPiece? then p.b else Given(p.w) }

  function BuffersOf(layer: seq<Piece>): (bufs: seq<Buffer>)
    ensures |bufs| == |layer|
  {
    if layer == [] then [] else [BufferOf(layer[0])] + BuffersOf(layer[1..])
  }

  lemma {:induction false} BuffersSnoc(layer: seq<Piece>, p: Piece)
    ensures BuffersOf(layer + [p]) == BuffersOf(layer) + [BufferOf(p)]
  {
    if layer == [] {
      assert [p] == [p] + [];
    } else {
      assert (layer + [p])[1..] == layer[1..] + [p];
      BuffersSnoc(layer[1..], p);
    }
  }

  /** The weights among the pieces, and the norms, in order. */
  function WeightsOf(layer: seq<Piece>): seq<Weight> {
    if layer == [] then [] else (if layer[0].MatrixPiece? then [layer[0].w] else []) + WeightsOf(layer[1..])
  }

  function NormsOf(layer: seq<Piece>): seq<Buffer> {
    if layer == [] then [] else (if layer[0].NormPiece? then [layer[0].b] else []) + NormsOf(layer[1..])
  }

  lemma Peel(layer: seq<Piece>, i: nat)
    requires i < |layer|
    ensures BuffersOf(layer[i..]) == [BufferOf(layer[i])] + BuffersOf(layer[i + 1..])
    ensures WeightsOf(layer[i..]) == (if layer[i].MatrixPiece? then [layer[i].w] else []) + WeightsOf(layer[i + 1..])
    ensures NormsOf(layer[i..]) == (if layer[i].NormPiece? then [layer[i].b] else []) + NormsOf(layer[i + 1..])
  {
    assert layer[i..][1..] == layer[i + 1..];
  }

  /** What a checkpoint says of a weight. */
  datatype Form = Form(quantized: bool, rows: nat)

  function FormOf(w: Weight): Form { Form(w.quantized, w.rows) }

  function Forms(slots: seq<Weight>): (forms: seq<Form>)
    ensures |forms| == |slots| && forall i | 0 <= i < |slots| :: forms[i] == FormOf(slots[i])
  {
    seq(|slots|, i requires 0 <= i < |slots| => FormOf(slots[i]))
  }

  lemma FormsBoth(a: seq<Weight>, b: seq<Weight>)
    ensures Forms(a + b) == Forms(a) + Forms(b)
  {
  }

  /** Newly bound. */
  predicate Fresh(p: Piece) {
    BufferOf(p).handle != 0 && (p.MatrixPiece? ==> Bound(p.w) && !p.w.packedReleased)
  }

  class Model {
    const device: Device
    const planes: nat
    /** What was live when the model was made. */
    ghost const start: map<nat, nat>
    /** The embedding table, the output head, then the layers' matrices. */
    var slots: seq<Weight>
    /** Rotary tables, caches and norms. */
    var others: seq<Buffer>
    /** What every forward pass allocates anew. */
    var batch: seq<Buffer>
    /** Bound, but in no place the destructor looks at: the layer being read, what a throw
        left of it, and a head without rows. */
    ghost var adrift: seq<Buffer>

    ghost function Owes(): (bufs: seq<Buffer>)
      requires |slots| >= 2
      reads this
      ensures |bufs| == |others| + |slots| + |batch| + |adrift|
    {
      others + OwedAll(slots) + (batch + adrift)
    }

    /** What the destructor does not name. */
    ghost function Unlisted(): seq<Buffer>
      requires |batch| >= LISTED
      reads this
    {
      batch[LISTED..] + adrift
    }

    /** Holds while loading, after materialising, between calls and before destruction. */
    ghost predicate Valid()
      reads this, device
    {
      && device.Valid() && Shaped(slots)
      && |others| >= 4 && |batch| == LISTED + 2 + planes
      && Accounts(Owes(), device.live, start)
      && forall k | 0 <= k < |adrift| :: adrift[k].handle != 0
    }

    constructor (device: Device, planes: nat)
      requires device.Valid()
      ensures this.device == device && this.planes == planes && start == device.live
      ensures Valid() && slots == [UNBOUND, UNBOUND] && adrift == [] && |others| == 4 && forall k | 0 <= k < |batch| :: batch[k] == NONE
    {
      this.device, this.planes, this.start, slots := device, planes, device.live, [UNBOUND, UNBOUND];
      others, batch := [NONE, NONE, NONE, NONE], seq(LISTED + 2 + planes, _ => NONE);
      adrift := [];
    }

    /** A norm. */
    method BindOther()
      requires Valid()
      modifies `others, device
      ensures Valid() && device.decoded == old(device.decoded)
      ensures |others| == |old(others)| + 1 && others[..|old(others)|] == old(others) && others[|old(others)|].handle != 0
    {
      var b := device.Allocate();
      ghost var was := Owes();
      var n := |others|;
      others := others + [b];
      Insert(was, old(device.live), start, n, b);
      assert Owes() == was[..n] + [b] + was[n..];
    }

    /** Give entry `i` of the others up, if it holds anything. */
    method FreeOther(i: nat)
      requires Valid() && i < |others|
      modifies `others, device
      ensures Valid() && others == old(others)[i := NONE] && device.decoded == old(device.decoded)
    {
      ghost var was := Owes();
      ghost var now := Free(others[i], was, i);
      others := others[i := NONE];
      assert Owes() == was[i := NONE];
    }

    method FillOther(i: nat)
      requires Valid() && i < |others| && others[i].handle == 0
      modifies `others, device
      ensures Valid() && |others| == |old(others)| && others[i].handle != 0 && device.decoded == old(device.decoded)
      ensures others == old(others)[i := others[i]]
    {
      ghost var was := Owes();
      var b := device.Allocate();
      others := others[i := b];
      Add(was, old(device.live), start, i, b);
      assert Owes() == was[i := b];
    }

    /** `grow_rope_table` and `reserve`: the pair at `i` is given up, then allocated anew. */
    method Renew(i: nat)
      requires Valid() && i + 1 < |others|
      modifies `others, device
      ensures Valid() && |others| == |old(others)| && others == old(others)[i := others[i]][i + 1 := others[i + 1]]
      ensures others[i].handle != 0 && others[i + 1].handle != 0 && device.decoded == old(device.decoded)
    {
      FreeOther(i);
      FreeOther(i + 1);
      FillOther(i);
      FillOther(i + 1);
    }

    /** A buffer beside everything that is owed. */
    method Spare(ghost bufs: seq<Buffer>) returns (b: Buffer)
      requires device.Valid() && Accounts(bufs, device.live, start)
      modifies device
      ensures device.Valid() && Accounts(bufs + [b], device.live, start) && b.handle != 0
      ensures device.decoded == old(device.decoded)
    {
      b := device.Allocate();
      AddLast(bufs, old(device.live), start, b);
    }

    /** `ensure_kv`: the new caches are allocated before the old ones are given up, so
        that rows can be copied. */
    method GrowCaches()
      requires Valid()
      modifies `others, device
      ensures Valid() && |others| == |old(others)|
      ensures others == old(others)[K_CACHE := others[K_CACHE]][V_CACHE := others[V_CACHE]]
      ensures others[K_CACHE].handle != 0 && others[V_CACHE].handle != 0 && device.decoded == old(device.decoded)
    {
      ghost var was := Owes();
      var k := Spare(was);
      var v := Spare(was + [k]);
      ghost var bufs := Free(others[K_CACHE], was + [k] + [v], K_CACHE);
      bufs := Free(others[V_CACHE], bufs, V_CACHE);
      Swapped(was, device.live, start, k, v);
      others := others[K_CACHE := k][V_CACHE := v];
      assert Owes() == was[K_CACHE := k][V_CACHE := v];
    }

    method FreeBatch(i: nat)
      requires Valid() && i < |batch|
      modifies `batch, device
      ensures Valid() && batch == old(batch)[i := NONE] && device.decoded == old(device.decoded)
    {
      ghost var was, n := Owes(), |others| + |slots|;
      ghost var now := Free(batch[i], was, n + i);
      AtEnd(others, OwedAll(slots), batch + adrift, i, NONE);
      assert (batch + adrift)[i := NONE] == batch[i := NONE] + adrift;
      batch := batch[i := NONE];
    }

    method FillBatch(i: nat)
      requires Valid() && i < |batch| && batch[i].handle == 0
      modifies `batch, device
      ensures Valid() && |batch| == |old(batch)| && batch == old(batch)[i := batch[i]] && batch[i].handle != 0
      ensures device.decoded == old(device.decoded)
    {
      ghost var was, n := Owes(), |others| + |slots|;
      var b := device.Allocate();
      Add(was, old(device.live), start, n + i, b);
      AtEnd(others, OwedAll(slots), batch + adrift, i, b);
      assert (batch + adrift)[i := b] == batch[i := b] + adrift;
      batch := batch[i := b];
    }

    /** `ensure_capacity`: all of the last batch's buffers go, then all of this one's are
        allocated. */
    method EnsureCapacity()
      requires Valid()
      modifies `batch, device
      ensures Valid() && device.decoded == old(device.decoded) && forall k | 0 <= k < |batch| :: batch[k].handle != 0
    {
      for i := 0 to |batch|
        invariant Valid() && device.decoded == old(device.decoded) && |batch| == |old(batch)|
        invariant forall k | 0 <= k < i :: batch[k].handle == 0
      {
        FreeBatch(i);
      }
      for i := 0 to |batch|
        invariant Valid() && device.decoded == old(device.decoded) && |batch| == |old(batch)|
        invariant forall k | 0 <= k < |batch| :: batch[k].handle != 0 <==> k < i
      {
        FillBatch(i);
      }
    }

    method BindWeight(quantized: bool, rows: nat) returns (w: Weight)
      requires device.Valid()
      modifies device
      ensures device.Valid() && Bound(w) && w.rows == rows && w.quantized == quantized && !w.packedReleased
      ensures Given(w).handle != 0 && Given(w).handle !in old(device.live)
      ensures device.live == old(device.live)[Given(w).handle := Given(w).serial] && device.decoded == old(device.decoded)
    {
      var b := device.Allocate();
      w := if quantized then Weight(NONE, b, true, rows, false) else Weight(b, NONE, false, rows, false);
    }

    method BindTable(quantized: bool, rows: nat)
      requires Valid() && slots[TABLE] == UNBOUND && slots[HEAD] == UNBOUND
      modifies `slots, device
      ensures Valid() && slots[HEAD] == UNBOUND && slots[TABLE].quantized == quantized && slots[2..] == old(slots[2..])
      ensures !slots[TABLE].packedReleased && slots[TABLE].rows == rows
    {
      var w := BindWeight(quantized, rows);
      Place(TABLE, w);
    }

    /** The checkpoint carries a head of its own. */
    method BindHead(quantized: bool, rows: nat)
      requires Valid() && slots[HEAD] == UNBOUND && !slots[TABLE].packedReleased && rows >= 1
      modifies `slots, device
      ensures Valid() && !Tied(slots) && slots == old(slots)[HEAD := slots[HEAD]]
      ensures slots[HEAD].quantized == quantized && slots[HEAD].rows == rows && !slots[HEAD].packedReleased
    {
      var w := FreshHead(quantized, rows);
      Place(HEAD, w);
    }

    /** A fresh head is never the table's buffer while the table's bytes are live. */
    method FreshHead(quantized: bool, rows: nat) returns (w: Weight)
      requires Valid() && slots[HEAD] == UNBOUND && !slots[TABLE].packedReleased && rows >= 1
      modifies device
      ensures device.Valid() && Bound(w) && w.rows == rows && w.quantized == quantized && !w.packedReleased
      ensures Given(w).handle != 0 && Given(w).handle !in old(device.live)
      ensures device.live == old(device.live)[Given(w).handle := Given(w).serial]
      ensures !SameBuffer(w, slots[TABLE])
    {
      ghost var table := Owes()[|others| + TABLE];
      assert table == Given(slots[TABLE]) && (table.handle != 0 ==> table.handle in device.live);
      w := BindWeight(quantized, rows);
    }

    /** It does not: the head is a copy of the whole table entry. */
    method TieHead()
      requires Valid() && slots[HEAD] == UNBOUND && slots[TABLE].rows != 0
      modifies `slots
      ensures Valid() && Tied(slots) && slots == old(slots)[HEAD := old(slots[TABLE])]
    {
      ghost var was := OwedAll(slots);
      slots := slots[HEAD := slots[TABLE]];
      assert OwedAll(slots) == was;
    }

    /** A matrix, for now held by the layer being read. */
    method BindMatrix(quantized: bool, rows: nat) returns (w: Weight)
      requires Valid()
      modifies `adrift, device
      ensures Valid() && Fresh(MatrixPiece(w)) && w.quantized == quantized && w.rows == rows
      ensures adrift == old(adrift) + [Given(w)] && device.decoded == old(device.decoded)
    {
      w := BindWeight(quantized, rows);
      AddLast(Owes(), old(device.live), start, Given(w));
      assert Owes() + [Given(w)] == others + OwedAll(slots) + (batch + (adrift + [Given(w)]));
      adrift := adrift + [Given(w)];
    }

    /** A norm of the layer being read. */
    method BindNorm() returns (b: Buffer)
      requires Valid()
      modifies `adrift, device
      ensures Valid() && Fresh(NormPiece(b)) && adrift == old(adrift) + [b] && device.decoded == old(device.decoded)
    {
      b := Spare(Owes());
      assert Owes() + [b] == others + OwedAll(slots) + (batch + (adrift + [b]));
      adrift := adrift + [b];
    }

    /** `layers_.push_back`: a finished layer becomes the model's, piece by piece. */
    method Adopt(layer: seq<Piece>, ghost lost: seq<Buffer>)
      requires Valid() && adrift == lost + BuffersOf(layer) && forall k | 0 <= k < |layer| :: Fresh(layer[k])
      requires forall k | 0 <= k < |slots| :: !slots[k].packedReleased
      modifies `slots, `others, `adrift
      ensures Valid() && adrift == lost && forall k | 0 <= k < |slots| :: !slots[k].packedReleased
      ensures slots == old(slots) + WeightsOf(layer) && others == old(others) + NormsOf(layer)
    {
      for i := 0 to |layer|
        invariant Valid() && adrift == lost + BuffersOf(layer[i..])
        invariant forall k | 0 <= k < |slots| :: !slots[k].packedReleased
        invariant slots + WeightsOf(layer[i..]) == old(slots) + WeightsOf(layer)
        invariant others + NormsOf(layer[i..]) == old(others) + NormsOf(layer)
      {
        Peel(layer, i);
        AdoptPiece(layer[i], lost, BuffersOf(layer[i + 1..]));
      }
    }

    method AdoptPiece(p: Piece, ghost lost: seq<Buffer>, ghost rest: seq<Buffer>)
      requires Valid() && adrift == lost + ([BufferOf(p)] + rest) && Fresh(p)
      modifies `slots, `others, `adrift
      ensures Valid() && adrift == lost + rest
      ensures slots == old(slots) + if p.MatrixPiece? then [p.w] else []
      ensures others == old(others) + if p.NormPiece? then [p.b] else []
    {
      assert adrift == lost + [BufferOf(p)] + rest;
      match p {
        case NormPiece(b) => AdoptNorm(b, lost, rest);
        case MatrixPiece(w) => AdoptMatrix(w, lost, rest);
      }
    }

    method AdoptNorm(b: Buffer, ghost lost: seq<Buffer>, ghost rest: seq<Buffer>)
      requires Valid() && adrift == lost + [b] + rest
      modifies `others, `adrift
      ensures Valid() && adrift == lost + rest && others == old(others) + [b]
    {
      ghost var middle := OwedAll(slots) + (batch + lost);
      assert Owes() == others + middle + [b] + rest;
      Split(lost, b, rest);
      Relocate(others, middle, b, rest, device.live, start);
      assert (others + [b]) + OwedAll(slots) + (batch + (lost + rest)) == others + [b] + middle + rest;
      others, adrift := others + [b], lost + rest;
    }

    method AdoptMatrix(w: Weight, ghost lost: seq<Buffer>, ghost rest: seq<Buffer>)
      requires Valid() && adrift == lost + [Given(w)] + rest && Fresh(MatrixPiece(w))
      modifies `slots, `adrift
      ensures Valid() && adrift == lost + rest && slots == old(slots) + [w]
    {
      ghost var owed, b := OwedAll(slots), Given(w);
      assert Owes() == (others + owed) + (batch + lost) + [b] + rest;
      Split(lost, b, rest);
      Relocate(others + owed, batch + lost, b, rest, device.live, start);
      assert OwedAll(slots + [w]) == owed + [b];
      assert others + (owed + [b]) + (batch + (lost + rest)) == (others + owed) + [b] + (batch + lost) + rest;
      slots, adrift := slots + [w], lost + rest;
    }

    /** Put a freshly bound weight into an empty slot. */
    method Place(i: nat, w: Weight)
      requires device.Valid() && |slots| >= 2 && i < 2 && slots[i] == UNBOUND && slots[HEAD] == UNBOUND
      requires (forall k | 0 <= k < |slots| :: Bound(slots[k])) && Bound(w) && (i == HEAD ==> w.rows >= 1) && !w.packedReleased
      requires Given(w).handle != 0 && Given(w).handle !in device.live - {Given(w).handle}
      requires Given(w).handle in device.live && device.live[Given(w).handle] == Given(w).serial
      requires |others| >= 4 && |batch| == LISTED + 2 + planes && forall k | 0 <= k < |adrift| :: adrift[k].handle != 0
      requires Accounts(Owes(), device.live - {Given(w).handle}, start) && (i == HEAD ==> !SameBuffer(w, slots[TABLE]))
      modifies `slots
      ensures Valid() && slots == old(slots)[i := w]
    {
      ghost var was, n := Owes(), |others|;
      slots := slots[i := w];
      assert Owes() == was[n + i := Given(w)];
      Add(was, device.live - {Given(w).handle}, start, n + i, Given(w));
      assert device.live == (device.live - {Given(w).handle})[Given(w).handle := Given(w).serial];
    }

    /** The packed bytes owed by slot `i` are released, and the slots that shared them are
        marked: `now` owes everything else. */
    method GiveUp(i: nat, now: seq<Weight>, ghost uses: set<Use>)
      requires Valid() && i < |slots| == |now| && slots[i].blocks.handle != 0
      requires OwedAll(slots)[i] == slots[i].blocks && OwedAll(now) == OwedAll(slots)[i := NONE] && Shaped(now)
      requires forall u | u in uses :: (slots[i].blocks.serial, u) in device.decoded
      modifies `slots, device
      ensures Valid() && slots == now && device.decoded == old(device.decoded)
    {
      DropMiddle(others, OwedAll(slots), batch + adrift, device.live, start, i);
      device.ReleasePacked(slots[i].blocks, uses);
      slots := now;
    }

    /** One packed weight that is nobody else's: decode, release, mark. */
    method MaterializeSlot(i: nat)
      requires Valid() && i < |slots| && i != TABLE && slots[i].quantized && !slots[i].packedReleased
      requires i == HEAD ==> SeparateHead(slots)
      modifies `slots, device
      ensures Valid() && slots == old(slots)[i := old(slots[i]).(packedReleased := true)]
      ensures Settled(i) && forall k: nat | k < |slots| && old(Settled(k)) :: Settled(k)
    {
      SlotGone(slots, i);
      DropMiddle(others, OwedAll(slots), batch + adrift, device.live, start, i);
      device.MaterializePacked(slots[i].blocks, Gemm);
      GiveUp(i, slots[i := slots[i].(packedReleased := true)], {Gemm});
    }

    /** The embedding table, and a tied head with it: two decodes of one allocation, then
        one release. */
    method MaterializeTable()
      requires Valid() && slots[TABLE].quantized && !slots[TABLE].packedReleased
      modifies `slots, device
      ensures Valid() && slots[TABLE] == old(slots[TABLE]).(packedReleased := true)
      ensures slots[HEAD] == if old(Tied(slots)) then slots[TABLE] else old(slots[HEAD])
      ensures slots[2..] == old(slots[2..]) && Tied(slots) == old(Tied(slots))
      ensures Settled(TABLE) && (Tied(slots) ==> Settled(HEAD))
    {
      var tied := slots[HEAD].rows != 0 && SameBuffer(slots[HEAD], slots[TABLE]);
      assert OwedAll(slots)[TABLE] == slots[TABLE].blocks;
      DropMiddle(others, OwedAll(slots), batch + adrift, device.live, start, TABLE);
      device.MaterializePacked(slots[TABLE].blocks, Embedding);
      if tied {
        device.MaterializePacked(slots[HEAD].blocks, Gemm);
      }
      var now := slots[TABLE := slots[TABLE].(packedReleased := true)];
      if tied {
        now := now[HEAD := now[HEAD].(packedReleased := true)];
      }
      TableGone(slots, now);
      GiveUp(TABLE, now, Consumers(slots, TABLE));
    }

    /** Slot `i` has given its packed bytes up, or is dense, and every form its consumers
        read is filed under its allocation. */
    ghost predicate Settled(i: nat)
      requires |slots| >= 2 && i < |slots|
      reads this, device
    {
      SettledIn(slots, device.decoded, i)
    }

    /** Main result: after the pass every packed weight's bytes are gone, each of them
        released after all of its decoded forms were built, and what the destructor
        still owes is exactly what is live. */
    method Materialize(backendMaterializes: bool)
      requires Valid() && forall i | 0 <= i < |slots| :: !slots[i].packedReleased
      modifies `slots, device
      ensures Valid() && |slots| == |old(slots)|
      ensures !backendMaterializes ==> slots == old(slots) && device.live == old(device.live)
      ensures backendMaterializes ==> forall i: nat | i < |slots| :: Settled(i)
      ensures forall i | 0 <= i < |slots| :: Given(slots[i]) == Given(old(slots[i]))
      ensures Forms(slots) == Forms(old(slots)) && Tied(slots) == old(Tied(slots))
      ensures old(slots[HEAD]) == UNBOUND ==> slots[HEAD] == UNBOUND
    {
      if !backendMaterializes {
        return;
      }
      MaterializeTop();
      ghost var top := slots;
      for i := 2 to |slots|
        invariant Valid() && |slots| == |old(slots)| && slots[..2] == top[..2]
        invariant forall k: nat | k < i :: Settled(k)
        invariant forall k | i <= k < |slots| :: slots[k] == old(slots[k])
        invariant forall k | 0 <= k < |slots| :: SameBinding(slots[k], old(slots[k]))
      {
        if slots[i].quantized && !slots[i].packedReleased {
          MaterializeSlot(i);
        }
      }
      assert slots[TABLE] == top[TABLE] && slots[HEAD] == top[HEAD];
    }

    /** The table, then a head of its own. */
    method MaterializeTop()
      requires Valid() && forall i | 0 <= i < |slots| :: !slots[i].packedReleased
      modifies `slots, device
      ensures Valid() && |slots| == |old(slots)| && slots[2..] == old(slots[2..])
      ensures Settled(TABLE) && Settled(HEAD) && Tied(slots) == old(Tied(slots))
      ensures SameBinding(slots[TABLE], old(slots[TABLE])) && SameBinding(slots[HEAD], old(slots[HEAD]))
      ensures old(slots[HEAD]) == UNBOUND ==> slots[HEAD] == UNBOUND
    {
      if slots[TABLE].quantized && !slots[TABLE].packedReleased {
        MaterializeTable();
      }
      if slots[HEAD].quantized && slots[HEAD].rows != 0 && !slots[HEAD].packedReleased
         && !SameBuffer(slots[HEAD], slots[TABLE]) {
        MaterializeSlot(HEAD);
      }
    }

    /** Release entry `i` of what is owed. */
    method Free(b: Buffer, ghost bufs: seq<Buffer>, ghost i: nat) returns (ghost now: seq<Buffer>)
      requires device.Valid() && Accounts(bufs, device.live, start) && i < |bufs| && bufs[i] == b
      modifies device
      ensures device.Valid() && now == bufs[i := NONE] && Accounts(now, device.live, start)
      ensures device.decoded == old(device.decoded)
    {
      now := bufs[i := NONE];
      Drop(bufs, device.live, start, i);
      if b.handle != 0 {
        device.Release(b);
      } else {
        assert device.live == device.live - {b.handle};
      }
    }

    /** `release_weight`, for a slot the destructor owes. */
    method ReleaseWeight(w: Weight, ghost bufs: seq<Buffer>, ghost i: nat) returns (ghost now: seq<Buffer>)
      requires device.Valid() && Accounts(bufs, device.live, start) && i < |bufs| && bufs[i] == Kept(w)
      modifies device
      ensures device.Valid() && now == bufs[i := NONE] && Accounts(now, device.live, start)
    {
      if w.quantized {
        if w.blocks.handle != 0 && !w.packedReleased {
          now := Free(w.blocks, bufs, i);
        } else {
          now := bufs[i := NONE];
          Drop(bufs, device.live, start, i);
          assert device.live == device.live - {Kept(w).handle};
        }
      } else {
        now := Free(w.data, bufs, i);
      }
    }

    /** The batch's buffers that the list names. */
    method ReleaseBatch() returns (ghost bufs: seq<Buffer>)
      requires Valid()
      modifies device
      ensures device.Valid() && Accounts(bufs, device.live, start)
      ensures var n := |others| + |slots|; Without(bufs, Owes(), n, n + LISTED)
    {
      bufs := Owes();
      ghost var n := |others| + |slots|;
      for i := 0 to LISTED
        invariant device.Valid() && Accounts(bufs, device.live, start) && Without(bufs, Owes(), n, n + i)
      {
        bufs := Free(batch[i], bufs, n + i);
      }
    }

    method ReleaseOthers(ghost was: seq<Buffer>) returns (ghost bufs: seq<Buffer>)
      requires device.Valid() && Accounts(was, device.live, start) && others <= was
      modifies device
      ensures device.Valid() && Accounts(bufs, device.live, start) && Without(bufs, was, 0, |others|)
    {
      bufs := was;
      for i := 0 to |others|
        invariant device.Valid() && Accounts(bufs, device.live, start) && Without(bufs, was, 0, i)
      {
        bufs := Free(others[i], bufs, i);
      }
    }

    method ReleaseMatrices(ghost was: seq<Buffer>) returns (ghost bufs: seq<Buffer>)
      requires device.Valid() && Accounts(was, device.live, start) && 2 <= |slots| && |was| >= |others| + |slots|
      requires forall k: nat, i: nat | k < |slots| && i == |others| + k :: was[i] == Owed(slots, k)
      modifies device
      ensures device.Valid() && Accounts(bufs, device.live, start)
      ensures Without(bufs, was, |others| + 2, |others| + |slots|)
    {
      bufs := was;
      ghost var n := |others|;
      for i := 2 to |slots|
        invariant device.Valid() && Accounts(bufs, device.live, start) && Without(bufs, was, n + 2, n + i)
      {
        assert was[n + i] == Owed(slots, i);
        bufs := ReleaseWeight(slots[i], bufs, n + i);
      }
    }

    /** The head unless it is the table's buffer, then the table. */
    method ReleaseTop(ghost was: seq<Buffer>) returns (ghost bufs: seq<Buffer>)
      requires device.Valid() && Accounts(was, device.live, start) && 2 <= |slots| && |was| >= |others| + 2
      requires was[|others|] == Owed(slots, TABLE) && was[|others| + 1] == Owed(slots, HEAD)
      modifies device
      ensures device.Valid() && Accounts(bufs, device.live, start) && |bufs| == |was|
      ensures forall k | 0 <= k < |was| :: if |others| <= k < |others| + 2 then bufs[k].handle == 0 else bufs[k] == was[k]
    {
      ghost var n := |others|;
      bufs := was;
      if slots[HEAD].rows != 0 && !SameBuffer(slots[HEAD], slots[TABLE]) {
        bufs := ReleaseWeight(slots[HEAD], bufs, n + 1);
      }
      bufs := ReleaseWeight(slots[TABLE], bufs, n);
    }

    /** All that the list names, in its order. */
    method ReleaseListed() returns (ghost bufs: seq<Buffer>)
      requires Valid()
      modifies device
      ensures device.Valid() && Accounts(bufs, device.live, start) && |bufs| == |Owes()|
      ensures var n := |others| + |slots| + LISTED;
              && (forall k | 0 <= k < n :: bufs[k].handle == 0) && forall k | n <= k < |bufs| :: bufs[k] == Owes()[k]
    {
      ghost var all, n, m := Owes(), |others|, |slots|;
      ghost var one := ReleaseBatch();
      ghost var two := ReleaseOthers(one);
      assert forall k: nat, i: nat | k < m && i == n + k :: two[i] == all[i] == Owed(slots, k);
      ghost var three := ReleaseMatrices(two);
      assert three[n] == two[n] && three[n + 1] == two[n + 1];
      bufs := ReleaseTop(three);
      PassesCover(all, one, two, three, bufs, n, m);
    }

    /** Main result: the destructor releases every buffer its list names while that very
        allocation is live, so none twice -- tied or untied, dense, packed or already
        given up -- and what stays live beyond the start is exactly what the list leaves
        out. */
    method Destroy()
      requires Valid()
      modifies device
      ensures device.Valid() && Accounts(Unlisted(), device.live, start)
    {
      ghost var bufs := ReleaseListed();
      DropFront(bufs, device.live, start, |others| + |slots| + LISTED);
      TailIs(bufs, others, OwedAll(slots), batch, adrift, LISTED);
    }
  }

  /** Why the tie test runs only on weights bound before anything is given up: an
      allocator that reuses a released handle would make a new head look like the
      table. */
  lemma StaleHandleLooksTied(h: nat, freed: nat, later: nat)
    requires h != 0 && freed != later
    ensures var table := Weight(NONE, Buffer(h, freed), true, 1, true);
            var head := Weight(NONE, Buffer(h, later), true, 1, false);
            SameBuffer(head, table) && Given(head) != Given(table)
  {
  }

  // ----- a whole life -----

  datatype Kind = Norm | Matrix(quantized: bool, rows: nat)

  /** A tensor the load asks for; one that is missing or malformed makes it throw. */
  datatype Tensor = Tensor(kind: Kind, readable: bool)

  datatype Head = TiedHead | OwnHead(quantized: bool, rows: nat, readable: bool)

  /** What a load finds in a checkpoint: whether its keys are acceptable, the table and
      whether it has the declared width, the head, the last norm and the layers. */
  datatype Checkpoint = Checkpoint(accepted: bool, quantized: bool, rows: nat, table: bool, width: bool,
                                   head: Head, norm: bool, layers: seq<seq<Tensor>>, planes: nat)

  /** How many tensors of a layer are read before one throws. */
  function Read(layer: seq<Tensor>): (n: nat)
    ensures n <= |layer|
  {
    if layer == [] || !layer[0].readable then 0 else 1 + Read(layer[1..])
  }

  predicate Whole(layer: seq<Tensor>) { Read(layer) == |layer| }

  /** What the first layer that throws leaves behind. */
  function Torn(layers: seq<seq<Tensor>>): nat {
    if layers == [] then 0 else if Whole(layers[0]) then Torn(layers[1..]) else Read(layers[0])
  }

  predicate ReachesHead(c: Checkpoint) { c.accepted && c.table && c.width }

  predicate ReachesLayers(c: Checkpoint) { ReachesHead(c) && (c.head.OwnHead? ==> c.head.readable) && c.norm }

  predicate Loads(c: Checkpoint) { ReachesLayers(c) && forall l | 0 <= l < |c.layers| :: Whole(c.layers[l]) }

  /** A head without rows is bound, but every later test takes it for unbound. */
  predicate EmptyHead(c: Checkpoint) { ReachesHead(c) && c.head.OwnHead? && c.head.readable && c.head.rows == 0 }

  /** The buffers a load leaves to nobody. */
  function Stranded(c: Checkpoint): nat {
    (if EmptyHead(c) then 1 else 0) + if ReachesLayers(c) then Torn(c.layers) else 0
  }

  lemma {:induction false} ReadIs(layer: seq<Tensor>, j: nat)
    requires j <= |layer| && (forall i | 0 <= i < j :: layer[i].readable) && (j < |layer| ==> !layer[j].readable)
    ensures Read(layer) == j
  {
    if j > 0 { ReadIs(layer[1..], j - 1); }
  }

  /** A throw at tensor `j` of layer `l` leaves the `j` buffers bound before it. */
  lemma {:induction false} TornAt(layers: seq<seq<Tensor>>, l: nat, j: nat)
    requires l < |layers| && (forall i, t | 0 <= i < l && 0 <= t < |layers[i]| :: layers[i][t].readable)
    requires j < |layers[l]| && !layers[l][j].readable && forall i | 0 <= i < j :: layers[l][i].readable
    ensures Torn(layers) == j
  {
    if l == 0 {
      ReadIs(layers[0], j);
    } else {
      ReadIs(layers[0], |layers[0]|);
      TornAt(layers[1..], l - 1, j);
    }
  }

  /** What a load of whole layers leaves to nobody. */
  lemma {:induction false} NothingTorn(layers: seq<seq<Tensor>>)
    requires forall l | 0 <= l < |layers| :: Whole(layers[l])
    ensures Torn(layers) == 0
  {
    if layers != [] { NothingTorn(layers[1..]); }
  }

  /** The matrices a layer asks for, and how many norms. */
  function Matrices(layer: seq<Tensor>): seq<Form> {
    if layer == [] then []
    else (if layer[0].kind.Matrix? then [Form(layer[0].kind.quantized, layer[0].kind.rows)] else []) + Matrices(layer[1..])
  }

  function Norms(layer: seq<Tensor>): nat {
    if layer == [] then 0 else (if layer[0].kind.Norm? then 1 else 0) + Norms(layer[1..])
  }

  function AllMatrices(layers: seq<seq<Tensor>>): seq<Form> {
    if layers == [] then [] else Matrices(layers[0]) + AllMatrices(layers[1..])
  }

  function AllNorms(layers: seq<seq<Tensor>>): nat {
    if layers == [] then 0 else Norms(layers[0]) + AllNorms(layers[1..])
  }

  /** The table and the head are those of the checkpoint. */
  predicate TopIs(slots: seq<Weight>, c: Checkpoint)
    requires |slots| >= 2
  {
    && FormOf(slots[TABLE]) == Form(c.quantized, c.rows)
    && match c.head
       case TiedHead => if c.rows == 0 then slots[HEAD] == UNBOUND else Tied(slots)
       case OwnHead(quantized, rows, _) =>
         if rows == 0 then slots[HEAD] == UNBOUND else !Tied(slots) && FormOf(slots[HEAD]) == Form(quantized, rows)
  }

  /** Every buffer from the norms on is bound. */
  predicate NormsBound(others: seq<Buffer>) { forall k | 4 <= k < |others| :: others[k].handle != 0 }

  /** Piece by piece what the layer asks for. */
  predicate Matches(pieces: seq<Piece>, layer: seq<Tensor>) {
    |pieces| == |layer| && forall i | 0 <= i < |pieces| :: IsPiece(pieces[i], layer[i])
  }

  predicate IsPiece(p: Piece, t: Tensor) {
    match p
    case NormPiece(_) => t.kind.Norm?
    case MatrixPiece(w) => t.kind.Matrix? && FormOf(w) == Form(t.kind.quantized, t.kind.rows)
  }

  lemma {:induction false} PiecesAre(pieces: seq<Piece>, layer: seq<Tensor>)
    requires Matches(pieces, layer) && forall i | 0 <= i < |pieces| :: Fresh(pieces[i])
    ensures Forms(WeightsOf(pieces)) == Matrices(layer) && |NormsOf(pieces)| == Norms(layer)
    ensures forall b | b in NormsOf(pieces) :: b.handle != 0
  {
    if pieces != [] {
      MatchesRest(pieces, layer);
      PiecesAre(pieces[1..], layer[1..]);
      FirstPiece(pieces[0], layer[0]);
      FormsBoth(if pieces[0].MatrixPiece? then [pieces[0].w] else [], WeightsOf(pieces[1..]));
    }
  }

  lemma FirstPiece(p: Piece, t: Tensor)
    requires IsPiece(p, t)
    ensures Forms(if p.MatrixPiece? then [p.w] else []) == if t.kind.Matrix? then [Form(t.kind.quantized, t.kind.rows)] else []
    ensures p.NormPiece? <==> t.kind.Norm?
  {
  }

  lemma MatchesRest(pieces: seq<Piece>, layer: seq<Tensor>)
    requires Matches(pieces, layer) && pieces != [] && forall i | 0 <= i < |pieces| :: Fresh(pieces[i])
    ensures IsPiece(pieces[0], layer[0]) && Fresh(pieces[0])
    ensures Matches(pieces[1..], layer[1..]) && forall i | 0 <= i < |pieces[1..]| :: Fresh(pieces[1..][i])
  {
    assert forall i | 0 <= i < |pieces[1..]| :: pieces[1..][i] == pieces[i + 1] && layer[1..][i] == layer[i + 1];
  }

  predicate Unreleased(slots: seq<Weight>) { forall k | 0 <= k < |slots| :: !slots[k].packedReleased }

  /** Table and head; a head without rows goes adrift. */
  method BindTop(model: Model, c: Checkpoint) returns (ok: bool)
    requires model.Valid() && model.slots == [UNBOUND, UNBOUND] && model.adrift == []
    modifies model`slots, model`others, model`adrift, model.device
    ensures model.Valid() && ok == ReachesLayers(c) && |model.adrift| == (if EmptyHead(c) then 1 else 0)
    ensures Unreleased(model.slots)
    ensures ok ==> TopIs(model.slots, c) && |model.slots| == 2
    ensures ok ==> |model.others| == |old(model.others)| + 1 && model.others[|old(model.others)|].handle != 0
  {
    ok := false;
    if !c.accepted || !c.table { return; }
    model.BindTable(c.quantized, c.rows);
    if !c.width { return; }
    match c.head {
      case TiedHead =>
        if c.rows != 0 { model.TieHead(); }
      case OwnHead(quantized, rows, readable) =>
        if !readable { return; }
        if rows == 0 {
          var w := model.BindMatrix(quantized, rows);
        } else {
          model.BindHead(quantized, rows);
        }
    }
    if !c.norm { return; }
    model.BindOther();
    ok := true;
  }

  /** The model has gained the layer's matrices and norms, behind what it had. */
  predicate Grown(slots: seq<Weight>, slots': seq<Weight>, others: seq<Buffer>, others': seq<Buffer>, weights: seq<Weight>,
                  norms: seq<Buffer>, layer: seq<Tensor>) {
    && slots' == slots + weights && Forms(weights) == Matrices(layer)
    && others' == others + norms && |norms| == Norms(layer) && forall b | b in norms :: b.handle != 0
  }

  /** One layer, into a local until it is complete. */
  method BindLayer(model: Model, layer: seq<Tensor>) returns (ok: bool)
    requires model.Valid() && Unreleased(model.slots)
    modifies model`slots, model`others, model`adrift, model.device
    ensures model.Valid() && Unreleased(model.slots) && ok == Whole(layer)
    ensures ok ==> model.adrift == old(model.adrift)
    ensures ok ==> exists weights, norms :: Grown(old(model.slots), model.slots, old(model.others), model.others, weights, norms, layer)
    ensures !ok ==> |model.adrift| == |old(model.adrift)| + Read(layer)
  {
    var pieces: seq<Piece> := [];
    ghost var lost := model.adrift;
    for i := 0 to |layer|
      invariant model.Valid() && model.slots == old(model.slots) && |pieces| == i
      invariant model.adrift == lost + BuffersOf(pieces) && forall k | 0 <= k < |pieces| :: Fresh(pieces[k])
      invariant forall k | 0 <= k < i :: layer[k].readable && IsPiece(pieces[k], layer[k])
      invariant model.others == old(model.others)
    {
      if !layer[i].readable {
        ReadIs(layer, i);
        return false;
      }
      var piece;
      match layer[i].kind {
        case Norm =>
          var b := model.BindNorm();
          piece := NormPiece(b);
        case Matrix(quantized, rows) =>
          var w := model.BindMatrix(quantized, rows);
          piece := MatrixPiece(w);
      }
      BuffersSnoc(pieces, piece);
      pieces := pieces + [piece];
    }
    ReadIs(layer, |layer|);
    PiecesAre(pieces, layer);
    model.Adopt(pieces, lost);
    ok := true;
    assert Grown(old(model.slots), model.slots, old(model.others), model.others, WeightsOf(pieces), NormsOf(pieces), layer);
  }

  /** Behind what the model had: weights of these forms, and that many bound norms. */
  predicate Holding(slots: seq<Weight>, slots': seq<Weight>, others: seq<Buffer>, others': seq<Buffer>, forms: seq<Form>, norms: nat) {
    && slots <= slots' && Forms(slots'[|slots|..]) == forms
    && others <= others' && |others'| == |others| + norms && forall b | b in others'[|others|..] :: b.handle != 0
  }

  function MatricesTo(layers: seq<seq<Tensor>>, n: nat): seq<Form>
    requires n <= |layers|
  {
    if n == 0 then [] else MatricesTo(layers, n - 1) + Matrices(layers[n - 1])
  }

  function NormsTo(layers: seq<seq<Tensor>>, n: nat): nat
    requires n <= |layers|
  {
    if n == 0 then 0 else NormsTo(layers, n - 1) + Norms(layers[n - 1])
  }

  lemma {:induction false} ToSplits(layers: seq<seq<Tensor>>, n: nat)
    requires n < |layers|
    ensures MatricesTo(layers, n + 1) == Matrices(layers[0]) + MatricesTo(layers[1..], n)
    ensures NormsTo(layers, n + 1) == Norms(layers[0]) + NormsTo(layers[1..], n)
  {
    if n == 0 {
      assert MatricesTo(layers, 1) == MatricesTo(layers, 0) + Matrices(layers[0]) == Matrices(layers[0]);
      assert Matrices(layers[0]) + [] == Matrices(layers[0]);
    } else {
      ToSplits(layers, n - 1);
      Associate(Matrices(layers[0]), MatricesTo(layers[1..], n - 1), Matrices(layers[1..][n - 1]));
    }
  }

  lemma Associate(a: seq<Form>, b: seq<Form>, c: seq<Form>)
    ensures (a + b) + c == a + (b + c)
  {
  }

  lemma {:induction false} AllAreTo(layers: seq<seq<Tensor>>)
    ensures AllMatrices(layers) == MatricesTo(layers, |layers|) && AllNorms(layers) == NormsTo(layers, |layers|)
  {
    if layers != [] {
      AllAreTo(layers[1..]);
      ToSplits(layers, |layers| - 1);
    }
  }

  lemma HoldingGrows(slots0: seq<Weight>, slots: seq<Weight>, slots': seq<Weight>, others0: seq<Buffer>, others: seq<Buffer>,
                     others': seq<Buffer>, layers: seq<seq<Tensor>>, i: nat)
    requires i < |layers| && Holding(slots0, slots, others0, others, MatricesTo(layers, i), NormsTo(layers, i))
    requires exists weights, norms :: Grown(slots, slots', others, others', weights, norms, layers[i])
    ensures Holding(slots0, slots', others0, others', MatricesTo(layers, i + 1), NormsTo(layers, i + 1))
  {
    var weights, norms :| Grown(slots, slots', others, others', weights, norms, layers[i]);
    SlotsGrow(slots0, slots, weights, MatricesTo(layers, i));
    NormsGrow(others0, others, norms, NormsTo(layers, i));
  }

  lemma SlotsGrow(slots0: seq<Weight>, slots: seq<Weight>, weights: seq<Weight>, forms: seq<Form>)
    requires slots0 <= slots && Forms(slots[|slots0|..]) == forms
    ensures slots0 <= slots + weights && Forms((slots + weights)[|slots0|..]) == forms + Forms(weights)
  {
    assert (slots + weights)[|slots0|..] == slots[|slots0|..] + weights;
    FormsBoth(slots[|slots0|..], weights);
  }

  lemma NormsGrow(others0: seq<Buffer>, others: seq<Buffer>, norms: seq<Buffer>, n: nat)
    requires others0 <= others && |others| == |others0| + n && forall b | b in others[|others0|..] :: b.handle != 0
    requires forall b | b in norms :: b.handle != 0
    ensures others0 <= others + norms && forall b | b in (others + norms)[|others0|..] :: b.handle != 0
  {
    assert (others + norms)[|others0|..] == others[|others0|..] + norms;
  }

  method BindLayers(model: Model, layers: seq<seq<Tensor>>) returns (ok: bool)
    requires model.Valid() && Unreleased(model.slots)
    modifies model`slots, model`others, model`adrift, model.device
    ensures model.Valid() && Unreleased(model.slots)
    ensures ok <==> forall l | 0 <= l < |layers| :: Whole(layers[l])
    ensures |model.adrift| == |old(model.adrift)| + Torn(layers)
    ensures ok ==> Holding(old(model.slots), model.slots, old(model.others), model.others, AllMatrices(layers), AllNorms(layers))
  {
    for i := 0 to |layers|
      invariant model.Valid() && Unreleased(model.slots) && model.adrift == old(model.adrift)
      invariant Holding(old(model.slots), model.slots, old(model.others), model.others, MatricesTo(layers, i), NormsTo(layers, i))
      invariant forall l | 0 <= l < i :: Whole(layers[l])
      invariant Torn(layers) == Torn(layers[i..])
    {
      assert layers[i..][1..] == layers[i + 1..];
      ghost var slots, others := model.slots, model.others;
      ok := BindLayer(model, layers[i]);
      if !ok { return; }
      HoldingGrows(old(model.slots), slots, model.slots, old(model.others), others, model.others, layers, i);
    }
    ok := true;
    AllAreTo(layers);
  }

  /** The model holds what the checkpoint has: its table, its head, the matrices of all
      layers in order, and the last norm with those of the layers. */
  ghost predicate LoadedAs(model: Model, c: Checkpoint)
    reads model
  {
    && |model.slots| >= 2 && TopIs(model.slots, c) && Forms(model.slots[2..]) == AllMatrices(c.layers)
    && |model.others| == 4 + 1 + AllNorms(c.layers) && NormsBound(model.others)
  }

  lemma TopStays(slots: seq<Weight>, slots': seq<Weight>, c: Checkpoint)
    requires |slots| >= 2 && slots <= slots' && TopIs(slots, c)
    ensures TopIs(slots', c)
  {
  }

  /** `load`: a throw leaves it early. */
  method Load(model: Model, c: Checkpoint, materializes: bool) returns (ok: bool)
    requires model.Valid() && model.slots == [UNBOUND, UNBOUND] && model.adrift == [] && |model.others| == 4
    requires forall k | 0 <= k < |model.batch| :: model.batch[k] == NONE
    modifies model, model.device
    ensures model.Valid() && ok == Loads(c) && |model.adrift| == Stranded(c)
    ensures forall k | 0 <= k < |model.batch| :: model.batch[k].handle != 0 <==> ok
    ensures ok ==> LoadedAs(model, c)
    ensures ok && materializes ==> forall i: nat | i < |model.slots| :: model.Settled(i)
    ensures ok && !materializes ==> Unreleased(model.slots)
  {
    ok := BindTop(model, c);
    if !ok { return; }
    ghost var slots, others := model.slots, model.others;
    ok := BindLayers(model, c.layers);
    if !ok { return; }
    TopStays(slots, model.slots, c);
    model.Materialize(materializes);
    Finish(model, materializes);
  }

  /** Rotary tables and the first batch; no weight is touched. */
  method Finish(model: Model, ghost materialized: bool)
    requires model.Valid() && (materialized ==> forall i: nat | i < |model.slots| :: model.Settled(i))
    requires |model.others| >= 4 && NormsBound(model.others)
    modifies model`others, model`batch, model.device
    ensures model.Valid() && (materialized ==> forall i: nat | i < |model.slots| :: model.Settled(i))
    ensures |model.others| == |old(model.others)| && NormsBound(model.others)
    ensures forall k | 0 <= k < |model.batch| :: model.batch[k].handle != 0
  {
    ghost var slots, decoded := model.slots, model.device.decoded;
    forall i: nat | materialized && i < |slots| ensures SettledIn(slots, decoded, i) {
      assert model.Settled(i);
    }
    model.Renew(ROPE_COS);
    model.EnsureCapacity();
  }

  /** What a forward pass or a reservation reallocates. */
  datatype Call = Batch | GrowTables | GrowSlabs | ReserveSlabs

  method Serve(model: Model, calls: seq<Call>)
    requires model.Valid() && forall k | 0 <= k < |model.batch| :: model.batch[k].handle != 0
    modifies model`others, model`batch, model.device
    ensures model.Valid() && forall k | 0 <= k < |model.batch| :: model.batch[k].handle != 0
  {
    for i := 0 to |calls|
      invariant model.Valid() && forall k | 0 <= k < |model.batch| :: model.batch[k].handle != 0
    {
      match calls[i] {
        case Batch => model.EnsureCapacity();
        case GrowTables => model.Renew(ROPE_COS);
        case GrowSlabs => model.GrowCaches();
        case ReserveSlabs => model.Renew(K_CACHE);
      }
    }
  }

  /** Main result: after a model's whole life exactly these allocations are left behind:
      the two per-token rotary tables and the deepstack planes of its last batch if it
      loaded, whatever was called in between; the part of a layer it had read if it threw
      there; and a head without rows.  The device is as before exactly when there are none. */
  method Life(device: Device, c: Checkpoint, materializes: bool, calls: seq<Call>)
    requires device.Valid()
    modifies device
    ensures device.Valid() && forall h | h in old(device.live) :: h in device.live && device.live[h] == old(device.live)[h]
    ensures |device.live| == |old(device.live)| + Stranded(c) + if Loads(c) then 2 + c.planes else 0
    ensures device.live == old(device.live) <==> Stranded(c) == 0 && !Loads(c)
  {
    var model := new Model(device, c.planes);
    var ok := Load(model, c, materializes);
    if ok {
      Serve(model, calls);
    }
    CountLeft(model.batch[LISTED..], model.adrift, ok);
    ghost var left := model.Unlisted();
    model.Destroy();
    CountOwned(left, device.live, model.start);
    if Held(left) == 0 { NothingOwned(left, device.live, model.start); }
  }

  lemma CountLeft(tail: seq<Buffer>, adrift: seq<Buffer>, ok: bool)
    requires (forall k | 0 <= k < |tail| :: tail[k].handle != 0 <==> ok) && forall k | 0 <= k < |adrift| :: adrift[k].handle != 0
    ensures Held(tail + adrift) == |adrift| + if ok then |tail| else 0
  {
    HeldBoth(tail, adrift);
    HeldAll(adrift);
    if ok { HeldAll(tail); }
  }
}
