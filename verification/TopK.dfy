/** The sampler: softmax, stable ranking, three truncations over the ranked list, and
    the draw by cumulative mass.  Arithmetic is over the reals and `exp` is a
    parameter. */
module TopK {
  import opened Flash

  // ----- softmax -----

  function At(row: seq<real>): nat -> real {
    (i: nat) => if i < |row| then row[i] else 0.0
  }

  /** The probability of token `i`: its share of the exponentials. */
  function Prob(e: real -> real, row: seq<real>, i: nat): real
    requires i < |row|
  {
    var mass := Mass(e, At(row), 0, |row|, 0.0);
    if mass == 0.0 then 0.0 else e(row[i]) / mass
  }

  function Prefix(values: seq<real>, n: nat): real
    requires n <= |values|
  {
    if n == 0 then 0.0 else Prefix(values, n - 1) + values[n - 1]
  }

  /** Shifted by any reference, the share is the same. */
  lemma ShareAt(e: real -> real, row: seq<real>, i: nat, max: real)
    requires ExpLaws(e) && i < |row|
    ensures Mass(e, At(row), 0, |row|, max) > 0.0
    ensures e(row[i] - max) / Mass(e, At(row), 0, |row|, max) == Prob(e, row, i) > 0.0
  {
    MassPositive(e, At(row), 0, |row|, 0.0);
    RescaleMass(e, At(row), 0, |row|, 0.0, max);
    Shift(e, row[i], 0.0, max);
    assert row[i] - 0.0 == row[i];
    QuotientKept(e(row[i]), Mass(e, At(row), 0, |row|, 0.0), e(0.0 - max),
                 e(row[i] - max), Mass(e, At(row), 0, |row|, max));
  }

  method Exponentials(row: seq<real>, e: real -> real, max: real) returns (dst: array<real>, total: real)
    ensures fresh(dst) && dst.Length == |row| && forall j | 0 <= j < |row| :: dst[j] == e(row[j] - max)
    ensures total == Mass(e, At(row), 0, |row|, max)
  {
    dst := new real[|row|];
    total := 0.0;
    for i := 0 to |row|
      invariant total == Mass(e, At(row), 0, i, max)
      invariant forall j | 0 <= j < i :: dst[j] == e(row[j] - max)
    {
      dst[i] := e(row[i] - max);
      total := total + dst[i];
    }
  }

  method DivideAll(dst: array<real>, total: real)
    requires total != 0.0
    modifies dst
    ensures forall j | 0 <= j < dst.Length :: dst[j] == old(dst[j]) / total
  {
    for i := 0 to dst.Length
      invariant forall j | 0 <= j < i :: dst[j] == old(dst[j]) / total
      invariant forall j | i <= j < dst.Length :: dst[j] == old(dst[j])
    {
      dst[i] := dst[i] / total;
    }
  }

  /** `softmax_row`: subtract the largest logit, exponentiate, divide by the total. */
  method SoftmaxRow(row: seq<real>, e: real -> real) returns (dst: array<real>)
    requires ExpLaws(e) && |row| >= 1
    ensures fresh(dst) && dst.Length == |row| && forall i: nat | i < |row| :: dst[i] == Prob(e, row, i)
  {
    var max := row[0];
    for i := 1 to |row| {
      if row[i] > max {
        max := row[i];
      }
    }
    var total;
    dst, total := Exponentials(row, e, max);
    ShareAt(e, row, 0, max);
    if total > 0.0 {
      DivideAll(dst, total);
    }
    forall i: nat | i < |row| ensures dst[i] == Prob(e, row, i) {
      ShareAt(e, row, i, max);
    }
  }

  // ----- ranking -----

  /** The comparator: larger value first, ties to the lower index. */
  predicate Precedes(values: seq<real>, a: nat, b: nat)
    requires a < |values| && b < |values|
  {
    values[a] > values[b] || (!(values[a] < values[b]) && a < b)
  }

  ghost predicate Indices(order: seq<nat>, n: nat) { forall i | 0 <= i < |order| :: order[i] < n }

  /** `order` lists the indices below `n`, each once, in the comparator's order. */
  ghost predicate Ranked(values: seq<real>, order: seq<nat>, n: nat)
    requires n <= |values|
  {
    && |order| == n && Indices(order, n)
    && (forall i, j | 0 <= i < j < n :: Precedes(values, order[i], order[j]))
    && forall a: nat | a < n :: a in order
  }

  lemma SameNext(values: seq<real>, x: seq<nat>, y: seq<nat>, n: nat, i: nat)
    requires i < n <= |values| && Ranked(values, x, n) && Ranked(values, y, n)
    requires forall t | 0 <= t < i :: x[t] == y[t]
    ensures x[i] == y[i]
  {
    assert x[i] in y && y[i] in x;
    var j :| 0 <= j < n && y[j] == x[i];
    var k :| 0 <= k < n && x[k] == y[i];
    assert forall t | 0 <= t < i :: Precedes(values, x[t], x[i]) && Precedes(values, y[t], y[i]);
  }

  /** There is only one such list, so any correct stable sort returns it. */
  lemma RankIsUnique(values: seq<real>, x: seq<nat>, y: seq<nat>, n: nat)
    requires n <= |values| && Ranked(values, x, n) && Ranked(values, y, n)
    ensures x == y
  {
    for i := 0 to n
      invariant forall t | 0 <= t < i :: x[t] == y[t]
    {
      SameNext(values, x, y, n, i);
    }
  }

  /** Where index `a` goes among `order`. */
  method Place(values: seq<real>, order: seq<nat>, a: nat) returns (p: nat)
    requires a < |values| && Ranked(values, order, a)
    ensures p <= |order|
    ensures forall i | 0 <= i < p :: Precedes(values, order[i], a)
    ensures forall i | p <= i < |order| :: Precedes(values, a, order[i])
  {
    p := |order|;
    while p > 0 && Precedes(values, a, order[p - 1])
      invariant p <= |order|
      invariant forall i | p <= i < |order| :: Precedes(values, a, order[i])
    {
      p := p - 1;
    }
    if p > 0 {
      forall i | 0 <= i < p ensures Precedes(values, order[i], a) {
        assert i == p - 1 || Precedes(values, order[i], order[p - 1]);
      }
    }
  }

  /** `rank_descending`; the library's stable sort is stood in for by insertion, whose
      result is the only possible one. */
  method RankDescending(values: seq<real>) returns (order: seq<nat>)
    ensures Ranked(values, order, |values|)
  {
    order := [];
    for a := 0 to |values|
      invariant Ranked(values, order, a)
    {
      var p := Place(values, order, a);
      var next := order[..p] + [a] + order[p..];
      forall b: nat | b < a + 1 ensures b in next {
        if b < a {
          assert b in order;
          var i :| 0 <= i < a && order[i] == b;
          assert next[if i < p then i else i + 1] == b;
        } else {
          assert next[p] == a;
        }
      }
      order := next;
    }
  }

  // ----- the three truncations -----

  ghost predicate Descending(ranked: seq<real>) {
    |ranked| >= 1 && ranked[0] > 0.0
    && (forall i | 0 <= i < |ranked| :: ranked[i] >= 0.0)
    && forall i, j | 0 <= i < j < |ranked| :: ranked[i] >= ranked[j]
  }

  function TopKCut(n: nat, topK: int): (c: nat)
    ensures c <= n
  {
    if 0 < topK < n then topK else n
  }

  /** The number of leading entries that reach `cutoff`. */
  function Reaching(ranked: seq<real>, cutoff: real, n: nat): (c: nat)
    requires n <= |ranked|
    ensures c <= n
    ensures forall i | 0 <= i < c :: ranked[i] >= cutoff
    ensures c < n ==> !(ranked[c] >= cutoff)
  {
    if n == 0 then 0
    else
      var c := Reaching(ranked, cutoff, n - 1);
      if c == n - 1 && ranked[n - 1] >= cutoff then n else c
  }

  function Cutoff(minP: real, top: real): real { minP * top }

  function MinPCut(ranked: seq<real>, minP: real): (c: nat)
    requires |ranked| >= 1
    ensures c <= |ranked|
  {
    if minP > 0.0 then Reaching(ranked, Cutoff(minP, ranked[0]), |ranked|) else |ranked|
  }

  /** The length of the shortest non-empty prefix whose mass reaches `p`, or everything
      when none does. */
  function ShortestReaching(ranked: seq<real>, p: real, from: nat): (c: nat)
    requires from <= |ranked|
    ensures from <= c <= |ranked|
    decreases |ranked| - from
  {
    if from == |ranked| then from
    else if Prefix(ranked, from + 1) >= p then from + 1
    else ShortestReaching(ranked, p, from + 1)
  }

  function TopPCut(ranked: seq<real>, topP: real): (c: nat)
    ensures c <= |ranked|
  {
    if topP < 1.0 then ShortestReaching(ranked, topP, 0) else |ranked|
  }

  lemma {:induction false} ShortestIs(ranked: seq<real>, p: real, from: nat)
    requires from <= |ranked|
    ensures var c := ShortestReaching(ranked, p, from);
            && (from < |ranked| ==> c > from)
            && (forall n | from < n < c :: Prefix(ranked, n) < p)
            && (Prefix(ranked, c) >= p || c == |ranked|)
    decreases |ranked| - from
  {
    if from < |ranked| && !(Prefix(ranked, from + 1) >= p) {
      ShortestIs(ranked, p, from + 1);
    }
  }

  lemma {:induction false} PrefixGrows(values: seq<real>, m: nat, n: nat)
    requires m <= n <= |values| && forall i | 0 <= i < |values| :: values[i] >= 0.0
    ensures 0.0 <= Prefix(values, m) <= Prefix(values, n)
  {
    if m < n { PrefixGrows(values, m, n - 1); }
    else if m > 0 { PrefixGrows(values, m - 1, m - 1); }
  }

  /** How many leading tokens survive all three rules. */
  function Kept(ranked: seq<real>, topK: int, topP: real, minP: real): (c: nat)
    requires |ranked| >= 1
    ensures c <= |ranked|
  {
    Least(TopKCut(|ranked|, topK), Least(MinPCut(ranked, minP), TopPCut(ranked, topP)))
  }

  function Least(a: nat, b: nat): nat { if a < b then a else b }

  /** The keep flags are true exactly on a prefix of length `n`. */
  ghost predicate IsPrefix(keep: seq<bool>, n: nat) {
    n <= |keep| && forall i | 0 <= i < |keep| :: keep[i] <==> i < n
  }

  lemma MinPEmptyIff(ranked: seq<real>, minP: real)
    requires Descending(ranked)
    ensures MinPCut(ranked, minP) == 0 <==> minP > 1.0
  {
    if minP > 0.0 {
      Against1(minP, ranked[0]);
      ReachesFirst(ranked, Cutoff(minP, ranked[0]));
    }
  }

  lemma ReachesFirst(ranked: seq<real>, cutoff: real)
    requires |ranked| >= 1
    ensures Reaching(ranked, cutoff, |ranked|) == 0 <==> ranked[0] < cutoff
  {
    var c := Reaching(ranked, cutoff, |ranked|);
    assert c == 0 || ranked[0] >= cutoff;
  }

  /** Everything the three rules leave is a prefix; only `min_p > 1` empties it. */
  lemma KeptIsEmptyIff(ranked: seq<real>, topK: int, topP: real, minP: real)
    requires Descending(ranked)
    ensures Kept(ranked, topK, topP, minP) == 0 <==> minP > 1.0
  {
    ShortestIs(ranked, topP, 0);
    MinPEmptyIff(ranked, minP);
  }

  /** Main result: rank `i` is kept exactly when it is below a positive `top_k`, its
      probability is at least a positive `min_p` times the first one's, and the mass ahead
      of it is less than a `top_p` below 1 or there is nothing ahead of it. */
  lemma KeptMeans(ranked: seq<real>, topK: int, topP: real, minP: real, i: nat)
    requires Descending(ranked) && i < |ranked|
    ensures i < Kept(ranked, topK, topP, minP) <==>
              && (topK > 0 ==> i < topK)
              && (minP > 0.0 ==> ranked[i] >= minP * ranked[0])
              && (topP < 1.0 ==> i == 0 || Prefix(ranked, i) < topP)
  {
    var cutoff := Cutoff(minP, ranked[0]);
    var c := Reaching(ranked, cutoff, |ranked|);
    assert i >= c ==> ranked[i] <= ranked[c] < cutoff;
    var q := ShortestReaching(ranked, topP, 0);
    ShortestIs(ranked, topP, 0);
    if i >= q { PrefixGrows(ranked, q, i); }
  }

  lemma Against1(m: real, r: real)
    requires r > 0.0
    ensures m > 1.0 <==> Cutoff(m, r) > r
  {
    var d := m - 1.0;
    assert m * r == d * r + r;
    ProductSign(d, r);
  }

  lemma ProductSign(d: real, r: real)
    requires r > 0.0
    ensures d > 0.0 <==> d * r > 0.0
  {
  }

  method ApplyTopK(keep: array<bool>, topK: int)
    requires forall i | 0 <= i < keep.Length :: keep[i]
    modifies keep
    ensures IsPrefix(keep[..], TopKCut(keep.Length, topK))
  {
    if topK > 0 && topK < keep.Length {
      for i := topK to keep.Length
        invariant forall j | 0 <= j < keep.Length :: keep[j] <==> j < topK || j >= i
      {
        keep[i] := false;
      }
    }
  }

  method ApplyMinP(keep: array<bool>, ranked: seq<real>, minP: real, ghost n: nat)
    requires keep.Length == |ranked| && Descending(ranked) && IsPrefix(keep[..], n)
    modifies keep
    ensures IsPrefix(keep[..], Least(n, MinPCut(ranked, minP)))
  {
    if minP > 0.0 {
      var cutoff := Cutoff(minP, ranked[0]);
      ghost var c := Reaching(ranked, cutoff, |ranked|);
      for i := 0 to |ranked|
        invariant forall j | 0 <= j < i :: keep[j] <==> j < n && j < c
        invariant forall j | i <= j < |ranked| :: keep[j] <==> j < n
      {
        assert ranked[i] >= cutoff <==> i < c;
        if !(ranked[i] >= cutoff) {
          keep[i] := false;
        }
      }
    }
  }

  /** The crossing: the first index whose running sum reaches `p`, or zero. */
  method Crossing(ranked: seq<real>, p: real) returns (crossing: nat)
    requires |ranked| >= 1
    ensures crossing < |ranked|
    ensures Prefix(ranked, ShortestReaching(ranked, p, 0)) >= p ==> crossing + 1 == ShortestReaching(ranked, p, 0)
    ensures !(Prefix(ranked, ShortestReaching(ranked, p, 0)) >= p) ==> crossing == 0
  {
    crossing := 0;
    var cumulative := 0.0;
    ShortestIs(ranked, p, 0);
    for i := 0 to |ranked|
      invariant crossing == 0 && cumulative == Prefix(ranked, i) && (i > 0 ==> cumulative < p)
      invariant ShortestReaching(ranked, p, 0) == ShortestReaching(ranked, p, i)
    {
      cumulative := cumulative + ranked[i];
      if cumulative >= p {
        crossing := i;
        break;
      }
    }
  }

  /** An entry stays under top-p exactly when it lies in the shortest prefix that
      reaches `p`. */
  lemma TopPKeeps(ranked: seq<real>, p: real, crossing: nat, i: nat)
    requires Descending(ranked) && i < |ranked|
    requires Prefix(ranked, ShortestReaching(ranked, p, 0)) >= p ==> crossing + 1 == ShortestReaching(ranked, p, 0)
    requires !(Prefix(ranked, ShortestReaching(ranked, p, 0)) >= p) ==> crossing == 0
    ensures Prefix(ranked, i) < p || i == crossing <==> i < ShortestReaching(ranked, p, 0)
  {
    var c := ShortestReaching(ranked, p, 0);
    ShortestIs(ranked, p, 0);
    if i < c {
      if i == 0 {
        PrefixGrows(ranked, 0, c);
        if !(Prefix(ranked, 0) < p) { assert Prefix(ranked, 1) >= p; }
      }
    } else {
      PrefixGrows(ranked, c, i);
    }
  }

  method ApplyTopP(keep: array<bool>, ranked: seq<real>, topP: real, ghost n: nat)
    requires keep.Length == |ranked| && Descending(ranked) && IsPrefix(keep[..], n)
    modifies keep
    ensures IsPrefix(keep[..], Least(n, TopPCut(ranked, topP)))
  {
    if topP < 1.0 {
      var crossing := Crossing(ranked, topP);
      ghost var c := ShortestReaching(ranked, topP, 0);
      var above := 0.0;
      for i := 0 to |ranked|
        invariant above == Prefix(ranked, i)
        invariant forall j | 0 <= j < i :: keep[j] <==> j < n && j < c
        invariant forall j | i <= j < |ranked| :: keep[j] <==> j < n
      {
        TopPKeeps(ranked, topP, crossing, i);
        var within := above < topP;
        if !within && i != crossing {
          keep[i] := false;
        }
        above := above + ranked[i];
      }
    }
  }

  /** The three rules together. */
  method Truncate(ranked: seq<real>, topK: int, topP: real, minP: real) returns (keep: array<bool>)
    requires Descending(ranked)
    ensures fresh(keep) && keep.Length == |ranked| && IsPrefix(keep[..], Kept(ranked, topK, topP, minP))
  {
    keep := new bool[|ranked|](_ => true);
    ApplyTopK(keep, topK);
    ApplyMinP(keep, ranked, minP, TopKCut(|ranked|, topK));
    ApplyTopP(keep, ranked, topP, Least(TopKCut(|ranked|, topK), MinPCut(ranked, minP)));
  }

  // ----- the draw -----

  /** The share of the kept mass below entry `i`. */
  function Cdf(ranked: seq<real>, kept: nat, i: nat): real
    requires i <= kept <= |ranked| && Prefix(ranked, kept) != 0.0
  {
    Prefix(ranked, i) / Prefix(ranked, kept)
  }

  /** The draws that select entry `i`: above everything before it, up to and with its
      own share.  Entry 0 also takes every draw below. */
  predicate Selects(ranked: seq<real>, kept: nat, uniform: real, i: nat)
    requires i < kept <= |ranked| && Prefix(ranked, kept) != 0.0
  {
    (i == 0 || Cdf(ranked, kept, i) < uniform) && uniform <= Cdf(ranked, kept, i + 1)
  }

  lemma CdfStep(ranked: seq<real>, kept: nat, i: nat)
    requires i < kept <= |ranked| && Prefix(ranked, kept) != 0.0
    ensures Cdf(ranked, kept, i + 1) == Cdf(ranked, kept, i) + ranked[i] / Prefix(ranked, kept)
    ensures Cdf(ranked, kept, kept) == 1.0
  {
    AddQuotients(Prefix(ranked, i), ranked[i], Prefix(ranked, kept));
    SelfQuotient(Prefix(ranked, kept));
  }

  lemma SelfQuotient(t: real)
    requires t != 0.0
    ensures t / t == 1.0
  {
  }

  lemma AddQuotients(a: real, b: real, t: real)
    requires t != 0.0
    ensures a / t + b / t == (a + b) / t
  {
    var x, y := a / t, b / t;
    assert a == x * t && b == y * t;
    assert a + b == (x + y) * t;
  }

  lemma CdfGrows(ranked: seq<real>, kept: nat, i: nat, j: nat)
    requires i <= j <= kept <= |ranked| && Prefix(ranked, kept) > 0.0
    requires forall k | 0 <= k < |ranked| :: ranked[k] >= 0.0
    ensures Cdf(ranked, kept, i) <= Cdf(ranked, kept, j)
  {
    PrefixGrows(ranked, i, j);
    DivideMono(Prefix(ranked, i), Prefix(ranked, j), Prefix(ranked, kept));
  }

  lemma DivideMono(a: real, b: real, t: real)
    requires t > 0.0 && a <= b
    ensures a / t <= b / t
  {
    AddQuotients(a, b - a, t);
    QuotientSign(b - a, t);
  }

  lemma QuotientSign(d: real, t: real)
    requires t > 0.0 && d >= 0.0
    ensures d / t >= 0.0
  {
  }

  /** Entry `i`'s draws form an interval as wide as its share of the kept mass, and no
      draw selects two entries. */
  lemma DrawIntervals(ranked: seq<real>, kept: nat, uniform: real, i: nat, j: nat)
    requires Descending(ranked) && i < kept <= |ranked| && j < kept && Prefix(ranked, kept) > 0.0
    ensures Cdf(ranked, kept, i + 1) - Cdf(ranked, kept, i) == ranked[i] / Prefix(ranked, kept)
    ensures Selects(ranked, kept, uniform, i) && Selects(ranked, kept, uniform, j) ==> i == j
  {
    CdfStep(ranked, kept, i);
    if i < j { CdfGrows(ranked, kept, i + 1, j); }
    if j < i { CdfGrows(ranked, kept, j + 1, i); }
  }

  /** Invert the cumulative mass at `uniform`. */
  method Draw(ranked: seq<real>, keep: array<bool>, ghost kept: nat, totalKept: real, uniform: real) returns (chosen: nat)
    requires Descending(ranked) && keep.Length == |ranked| && IsPrefix(keep[..], kept) && kept >= 1
    requires totalKept == Prefix(ranked, kept) > 0.0
    ensures uniform <= 1.0 ==> chosen < kept && Selects(ranked, kept, uniform, chosen)
    ensures uniform > 1.0 ==> chosen == |ranked| - 1
  {
    chosen := |ranked| - 1;
    var cumulative := 0.0;
    CdfStep(ranked, kept, 0);
    assert forall i | 0 <= i < |ranked| :: keep[..][i] == keep[i];
    for i := 0 to |ranked|
      invariant chosen == |ranked| - 1
      invariant cumulative == Cdf(ranked, kept, if i < kept then i else kept)
      invariant i > 0 ==> cumulative < uniform
    {
      if keep[i] {
        cumulative := NextMass(ranked, kept, totalKept, i, cumulative);
        if cumulative >= uniform {
          chosen := i;
          break;
        }
      }
    }
  }

  /** One more kept entry's share. */
  method NextMass(ranked: seq<real>, ghost kept: nat, totalKept: real, i: nat, cumulative: real) returns (next: real)
    requires Descending(ranked) && i < kept <= |ranked| && totalKept == Prefix(ranked, kept) > 0.0
    requires cumulative == Cdf(ranked, kept, i)
    ensures next == Cdf(ranked, kept, i + 1) <= 1.0
  {
    CdfStep(ranked, kept, i);
    CdfGrows(ranked, kept, i + 1, kept);
    next := cumulative + ranked[i] / totalKept;
  }

  method KeptMass(ranked: seq<real>, keep: array<bool>, ghost kept: nat) returns (total: real)
    requires keep.Length == |ranked| && IsPrefix(keep[..], kept)
    ensures total == Prefix(ranked, kept)
  {
    total := 0.0;
    for i := 0 to |ranked|
      invariant total == Prefix(ranked, if i < kept then i else kept)
    {
      assert keep[..][i] <==> i < kept;
      if keep[i] {
        total := total + ranked[i];
      }
    }
  }

  datatype Outcome = NoLogits | Token(t: nat)

  function Probs(e: real -> real, logits: seq<real>): (probs: seq<real>)
    ensures |probs| == |logits| && forall i: nat | i < |logits| :: probs[i] == Prob(e, logits, i)
  {
    seq(|logits|, (i: nat) requires i < |logits| => Prob(e, logits, i))
  }

  /** The ranked probabilities. */
  ghost predicate RankedProbs(e: real -> real, logits: seq<real>, order: seq<nat>, ranked: seq<real>) {
    |ranked| == |order| == |logits| && Indices(order, |logits|)
    && forall i | 0 <= i < |ranked| :: ranked[i] == Prob(e, logits, order[i])
  }

  lemma ProbsDescend(e: real -> real, logits: seq<real>, probs: seq<real>, order: seq<nat>, ranked: seq<real>)
    requires ExpLaws(e) && |logits| >= 1 && |probs| == |logits| && RankedProbs(e, logits, order, ranked)
    requires forall i: nat | i < |logits| :: probs[i] == Prob(e, logits, i)
    requires Ranked(probs, order, |logits|)
    ensures Descending(ranked)
  {
    forall i | 0 <= i < |ranked| ensures ranked[i] > 0.0 {
      ShareAt(e, logits, order[i], 0.0);
    }
    forall i, j | 0 <= i < j < |ranked| ensures ranked[i] >= ranked[j] {
      assert Precedes(probs, order[i], order[j]);
    }
  }

  /** Entry `i` is kept and its interval holds the draw. */
  predicate Chosen(ranked: seq<real>, kept: nat, uniform: real, i: nat) {
    i < kept <= |ranked| && Prefix(ranked, kept) != 0.0 && Selects(ranked, kept, uniform, i)
  }

  /** Main result: the sampler ranks the softmax probabilities, keeps the shortest of
      the three prefixes, and returns the kept token whose interval holds the draw; if
      `min_p > 1` left nothing it returns the most probable token. */
  method Sample(e: real -> real, logits: seq<real>, uniform: real, topK: int, topP: real, minP: real)
    returns (out: Outcome, ghost order: seq<nat>, ghost ranked: seq<real>)
    requires ExpLaws(e)
    ensures out == NoLogits <==> |logits| == 0
    ensures |logits| > 0 ==> RankedProbs(e, logits, order, ranked) && Descending(ranked) && out.t in order
    ensures |logits| > 0 ==> Ranked(Probs(e, logits), order, |logits|)
    ensures |logits| > 0 && minP > 1.0 ==> out.t == order[0]
    ensures |logits| > 0 && minP <= 1.0 && uniform <= 1.0 ==>
              exists i: nat :: Chosen(ranked, Kept(ranked, topK, topP, minP), uniform, i) && out.t == order[i]
  {
    order, ranked := [], [];
    if |logits| <= 0 {
      return NoLogits, [], [];
    }
    var dst := SoftmaxRow(logits, e);
    var probs := dst[..];
    assert probs == Probs(e, logits);
    var rank := RankDescending(probs);
    var values := seq(|rank|, (i: nat) requires i < |rank| && rank[i] < |probs| => probs[rank[i]]);
    order, ranked := rank, values;
    ProbsDescend(e, logits, probs, rank, values);
    var keep := Truncate(values, topK, topP, minP);
    ghost var kept := Kept(values, topK, topP, minP);
    KeptIsEmptyIff(values, topK, topP, minP);
    var totalKept := KeptMass(values, keep, kept);
    if kept > 0 { PrefixGrows(values, 1, kept); }
    if !(totalKept > 0.0) {
      return Token(rank[0]), order, ranked;
    }
    var chosen := Draw(values, keep, kept, totalKept, uniform);
    out := Token(rank[chosen]);
    assert uniform <= 1.0 ==> Chosen(values, kept, uniform, chosen);
  }
}
