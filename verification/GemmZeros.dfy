/** The laws of zero behind the q6_K kernels: an arithmetic that obeys them, and one for each
    law that breaks only that one and tells the kernels apart. */
module GemmZeros {
  import opened Q4KBlock
  import opened Q4KColumns
  import opened Q4KProduct
  import opened GemmRows

  /** Exact arithmetic with a signed zero. */
  datatype Signed = MinusZero | Num(r: real)
  {
    function Value(): real { if MinusZero? then 0.0 else r }
    predicate Negative() { MinusZero? || r < 0.0 }
  }

  function SignedAdd(a: Signed, b: Signed): Signed {
    if a == MinusZero && b == MinusZero then MinusZero else Num(a.Value() + b.Value())
  }

  function SignedMul(a: Signed, b: Signed): Signed {
    if a.Value() * b.Value() == 0.0 && a.Negative() != b.Negative() then MinusZero else Num(a.Value() * b.Value())
  }

  function SignedNeg(a: Signed): Signed {
    if a == MinusZero then Num(0.0) else if a.r == 0.0 then MinusZero else Num(-a.r)
  }

  function SignedOps(zero: Signed): Ops<Signed> {
    Ops(zero, SignedMul, SignedAdd, (a: Signed, b: Signed) => SignedAdd(a, SignedNeg(b)), SignedNeg,
        (a: Signed, b: Signed, c: Signed) => SignedAdd(SignedMul(a, b), c), (i: int) => Num(i as real),
        (lo: bv8, hi: bv8) => Num(0.0))
  }

  function IsPlus(a: Signed): bool { a != MinusZero }

  /** With sums started at plus zero, signed arithmetic meets the laws. */
  lemma SignedZerosBehave()
    ensures ZeroLaws(SignedOps(Num(0.0)), IsPlus)
  {
  }

  /** Without the laws the q6_K promise fails: were sums started at one, which is no zero,
      an empty row would already gain four, though the other laws hold. */
  lemma LawsAreNeeded()
    ensures Paired<Signed>(Q6K, [], [])
    ensures var ops := SignedOps(Num(1.0));
            && IsPlus(ops.zero) && (forall a, i, c :: FmaLaw(ops, IsPlus, a, i, c)) && (forall a, b :: AddLaw(ops, IsPlus, a, b))
            && TileValue(ops, Q6K, [], []) != RowValue(ops, Q6K, [], [])
  {
    var ops := SignedOps(Num(1.0));
    Tree8(ops, Zeros(ops, 8));
    Tree4(ops, Zeros(ops, 4));
  }

  /** Signed arithmetic with another addition, and a multiply-add that forgets its inputs. */
  function BentOps(add: (Signed, Signed) -> Signed, product: Signed): Ops<Signed> {
    SignedOps(Num(0.0)).(add := add, fma := (a: Signed, b: Signed, c: Signed) => product)
  }

  function Four(add: (Signed, Signed) -> Signed, x: Signed): Signed { add(add(x, x), add(x, x)) }

  /** The two kernels on one block, whatever the block. */
  lemma BentValues(add: (Signed, Signed) -> Signed, product: Signed, block: Bytes, act: Act<Signed>)
    requires Paired(Q6K, [block], [act])
    ensures var ops, total := BentOps(add, product), add(Four(add, product), Four(add, product));
            Differ(ops, block, act) <==> total != add(total, Four(add, Num(0.0)))
  {
    var ops := BentOps(add, product);
    assert Lanes(ops, Q6K, [block], [act], 0) == Zeros(ops, 8);
    assert Lanes(ops, Q6K, [block], [act], 1) == seq(8, _ => product);
    Tree8(ops, seq(8, _ => product));
    Tree4(ops, Zeros(ops, 4));
  }

  ghost predicate Differ(ops: Ops<Signed>, block: Bytes, act: Act<Signed>)
    requires Paired(Q6K, [block], [act])
  {
    TileValue(ops, Q6K, [block], [act]) != RowValue(ops, Q6K, [block], [act])
  }

  ghost predicate AllButFma(ops: Ops<Signed>) {
    && IsPlus(ops.zero) && (forall a: Signed, b: Signed :: AddLaw(ops, IsPlus, a, b))
    && forall a: Signed | IsPlus(a) :: ops.add(a, ops.zero) == a
  }

  ghost predicate AllButAdd(ops: Ops<Signed>) {
    && IsPlus(ops.zero) && (forall a: Signed, i: int, c: Signed :: FmaLaw(ops, IsPlus, a, i, c))
    && forall a: Signed | IsPlus(a) :: ops.add(a, ops.zero) == a
  }

  /** The law of multiply-add is needed: where it gives minus zero the kernels differ,
      though the other laws hold. */
  lemma FmaLawIsNeeded(block: Bytes, act: Act<Signed>)
    requires Paired(Q6K, [block], [act])
    ensures AllButFma(BentOps(SignedAdd, MinusZero)) && Differ(BentOps(SignedAdd, MinusZero), block, act)
  {
    SignedLaws();
    MinusIsSeen();
    BentValues(SignedAdd, MinusZero, block, act);
  }

  lemma MinusIsSeen()
    ensures var total := SignedAdd(Four(SignedAdd, MinusZero), Four(SignedAdd, MinusZero));
            total != SignedAdd(total, Four(SignedAdd, Num(0.0)))
  {
    assert SignedAdd(MinusZero, MinusZero) == MinusZero && SignedAdd(Num(0.0), Num(0.0)) == Num(0.0);
  }

  lemma SignedLaws()
    ensures AllButFma(BentOps(SignedAdd, MinusZero))
  {
  }

  /** Adding zero keeps what is not minus zero; any other sum is minus zero. */
  function BentAdd(a: Signed, b: Signed): Signed {
    if b == Num(0.0) then (if a == MinusZero then b else a) else MinusZero
  }

  /** So is the law of addition: where a sum may be minus zero they differ. */
  lemma AddLawIsNeeded(block: Bytes, act: Act<Signed>)
    requires Paired(Q6K, [block], [act])
    ensures AllButAdd(BentOps(BentAdd, Num(1.0))) && Differ(BentOps(BentAdd, Num(1.0)), block, act)
  {
    BentValues(BentAdd, Num(1.0), block, act);
    assert Four(BentAdd, Num(1.0)) == MinusZero && Four(BentAdd, Num(0.0)) == Num(0.0);
  }
}
