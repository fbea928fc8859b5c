/** The fan-out of a request into choices, and the state that cancels a whole group by
    its outer id. */
module ChoiceGroup {
  import opened Choices

  datatype Option<T> = None | Some(value: T)

  datatype Request = Request(id: string, n: int, temperature: real, seed: Option<int>)

  datatype Expansion = Choices(requests: seq<Request>) | TooMany

  // ----- ids -----

  const DIGITS: seq<char> := ['0', '1', '2', '3', '4', '5', '6', '7', '8', '9']

  /** `str(n)`. */
  function Decimal(n: nat): (s: string)
    ensures |s| >= 1
  {
    if n < 10 then [DIGITS[n]] else Decimal(n / 10) + [DIGITS[n % 10]]
  }

  lemma {:induction false} DecimalHasNoMark(n: nat)
    ensures MARK !in Decimal(n)
  {
    if n >= 10 { DecimalHasNoMark(n / 10); }
  }

  lemma {:induction false} DecimalIsInjective(a: nat, b: nat)
    requires Decimal(a) == Decimal(b)
    ensures a == b
  {
    var s, t := Decimal(a), Decimal(b);
    assert s[|s| - 1] == DIGITS[a % 10] && t[|t| - 1] == DIGITS[b % 10];
    assert a % 10 == b % 10;
    assert (a >= 10 <==> |s| >= 2) && (b >= 10 <==> |t| >= 2);
    if a >= 10 {
      assert s[..|s| - 1] == Decimal(a / 10) && t[..|t| - 1] == Decimal(b / 10);
      DecimalIsInjective(a / 10, b / 10);
    }
  }

  function ChoiceId(id: string, choice: nat): string { id + [MARK] + Decimal(choice) }

  lemma ChoiceIdsDiffer(id: string, i: nat, j: nat)
    requires ChoiceId(id, i) == ChoiceId(id, j)
    ensures i == j
  {
    var s, t := ChoiceId(id, i), ChoiceId(id, j);
    assert s[|id| + 1..] == Decimal(i) && t[|id| + 1..] == Decimal(j);
    DecimalIsInjective(i, j);
  }

  // ----- the fan-out -----

  const STOCHASTIC := 0.00001

  predicate Varies(r: Request) { r.temperature > STOCHASTIC }

  function Base(r: Request): int { if r.seed.None? then 0 else r.seed.value }

  function ChoiceOf(r: Request, choice: nat): Request {
    r.(id := ChoiceId(r.id, choice), n := 1, seed := Some(ChoiceSeed(Base(r), choice, Varies(r))))
  }

  /** `expanded`. */
  function Expanded(r: Request): Expansion {
    if r.n <= 1 then Choices([r])
    else if r.n > MAX_CHOICES then TooMany
    else Choices(seq(r.n, (i: nat) => ChoiceOf(r, i)))
  }

  /** Main result: a fan-out is the request itself or `n` single-choice requests with
      pairwise different ids, and -- past the first, when the request samples -- pairwise
      different seeds; more than the ceiling is refused. */
  lemma FanOut(r: Request)
    ensures Expanded(r).TooMany? <==> r.n > 128
    ensures r.n <= 1 ==> Expanded(r) == Choices([r])
    ensures 1 < r.n <= 128 ==>
              var cs := Expanded(r).requests;
              && |cs| == r.n
              && (forall i: nat | i < |cs| :: cs[i] == ChoiceOf(r, i))
              && (forall i: nat, j: nat | i < j < |cs| :: cs[i].id != cs[j].id)
              && (r.temperature > 0.00001 ==> forall i: nat, j: nat | 1 <= i < j < |cs| :: cs[i].seed != cs[j].seed)
              && (r.temperature <= 0.00001 ==> forall i: nat | i < |cs| :: cs[i].seed == Some(Masked(Base(r))))
  {
    if 1 < r.n <= 128 {
      var cs := Expanded(r).requests;
      forall i: nat, j: nat | i < j < |cs| ensures cs[i].id != cs[j].id {
        if ChoiceId(r.id, i) == ChoiceId(r.id, j) { ChoiceIdsDiffer(r.id, i, j); }
      }
      forall i: nat, j: nat | 1 <= i < j < |cs| && Varies(r) ensures cs[i].seed != cs[j].seed {
        SeedsAreDistinct(Base(r), i, j);
      }
    }
  }

  /** The number a string of digits denotes. */
  function ReadDecimal(s: string): nat {
    if s == [] then 0
    else 10 * ReadDecimal(s[..|s| - 1]) + (if '0' <= s[|s| - 1] <= '9' then (s[|s| - 1] - '0') as nat else 0)
  }

  lemma {:induction false} DecimalReadsBack(n: nat)
    ensures ReadDecimal(Decimal(n)) == n
    ensures n >= 10 ==> Decimal(n)[0] != '0'
    ensures forall c | c in Decimal(n) :: '0' <= c <= '9'
  {
    assert DIGITS[n % 10] == ('0' as int + n % 10) as char;
    if n >= 10 {
      DecimalReadsBack(n / 10);
      assert Decimal(n)[..|Decimal(n)| - 1] == Decimal(n / 10);
      assert Decimal(n)[0] == Decimal(n / 10)[0];
    }
  }

  /** Main result: choice `i` of an accepted fan-out is the request itself but for its id --
      the request's, a number sign and `i` in decimal --, its count of one, and its seed: the
      caller's for choice 0 and for every choice at temperature 0.00001 or below. */
  lemma ChoiceMeans(r: Request, i: nat)
    requires 1 < r.n <= 128 && i < r.n
    ensures Expanded(r).Choices? && |Expanded(r).requests| == r.n
    ensures var c := Expanded(r).requests[i];
            && r.id + "#" < c.id && c.n == 1 && c.temperature == r.temperature && c.seed.Some?
            && ReadDecimal(c.id[|r.id| + 1..]) == i
            && (i == 0 || r.temperature <= 0.00001 ==>
                  c.seed.value == (if r.seed.None? then 0 else r.seed.value) % 0x1_0000_0000_0000_0000)
  {
    var c := Expanded(r).requests[i];
    assert c.id == r.id + "#" + Decimal(i);
    assert c.id[|r.id| + 1..] == Decimal(i);
    DecimalReadsBack(i);
  }

  // ----- cancellation -----

  /** A cancellation of `id` reaches `name`: the id itself, or it and the mark are how
      the name begins. */
  predicate Reaches(id: string, name: string) { name == id || id + [MARK] <= name }

  /** The engine ids a request is run under. */
  function Names(r: Request): set<string> {
    if r.n <= 1 then {r.id} else set i: nat | i < r.n :: ChoiceId(r.id, i)
  }

  /** A cancellation reaches its own request's choices, all of them. */
  lemma ReachesOwnGroup(r: Request, name: string)
    requires name in Names(r)
    ensures Reaches(r.id, name)
  {
    if r.n > 1 {
      var i: nat :| i < r.n && name == ChoiceId(r.id, i);
      assert name == (r.id + [MARK]) + Decimal(i);
    }
  }

  /** Main result: which choices of another request a cancellation reaches -- exactly
      when that request has the same id, or its id is inside the cancelled group's
      names, or the cancelled id is that very choice. */
  lemma ReachesIff(id: string, other: string, i: nat)
    ensures Reaches(id, ChoiceId(other, i)) <==> id == other || id + [MARK] <= other || id == ChoiceId(other, i)
  {
    var name := ChoiceId(other, i);
    DecimalHasNoMark(i);
    assert name == other + [MARK] + Decimal(i);
    assert other + [MARK] <= name && other <= name;
    assert forall k | |other| < k < |name| :: name[k] == Decimal(i)[k - |other| - 1];
    if id + [MARK] <= name {
      var p := |id|;
      assert name[p] == MARK && name[..p] == id;
      if p < |other| {
        assert name[..p + 1] == other[..p + 1];
        assert id + [MARK] == other[..p + 1];
      } else if p == |other| {
        assert name[..p] == other;
      }
    }
  }

  lemma NoMarkBefore(a: string, b: string, i: nat)
    ensures MARK !in b ==> !(a + [MARK] <= b)
    ensures MARK !in a ==> a != ChoiceId(b, i)
  {
    assert (a + [MARK])[|a|] == MARK && ChoiceId(b, i)[|b|] == MARK;
  }

  /** So among requests whose ids hold no mark, a cancellation reaches one group and no
      other. */
  lemma MarkFreeIdsKeepGroupsApart(p: Request, q: Request, name: string)
    requires MARK !in p.id && MARK !in q.id && name in Names(q)
    ensures Reaches(p.id, name) <==> p.id == q.id
  {
    NoMarkBefore(p.id, q.id, 0);
    if q.n > 1 {
      var i: nat :| i < q.n && name == ChoiceId(q.id, i);
      ReachesIff(p.id, q.id, i);
      NoMarkBefore(p.id, q.id, i);
    }
  }

  /** The outer id of an engine request: everything before the first mark. */
  function Outer(name: string): string {
    if name == [] || name[0] == MARK then [] else [name[0]] + Outer(name[1..])
  }

  lemma {:induction false} OuterIs(name: string)
    ensures Outer(name) <= name && MARK !in Outer(name)
    ensures Outer(name) == name || Outer(name) + [MARK] <= name
  {
    if name != [] && name[0] != MARK {
      OuterIs(name[1..]);
      assert name == [name[0]] + name[1..];
    }
  }

  /** Main result: a cancellation by a mark-free id reaches exactly the engine requests
      whose outer id it is. */
  lemma ReachesIsOuter(id: string, name: string)
    requires MARK !in id
    ensures Reaches(id, name) <==> Outer(name) == id
  {
    OuterIs(name);
    var o := Outer(name);
    NoMarkBefore(id, o, 0);
    NoMarkBefore(o, id, 0);
    if Reaches(id, name) {
      SamePrefix(id, o, name);
    }
  }

  /** Two mark-free prefixes of a name, each the whole name or followed by the mark, are
      the same. */
  lemma SamePrefix(a: string, b: string, name: string)
    requires MARK !in a && MARK !in b && (a == name || a + [MARK] <= name) && (b == name || b + [MARK] <= name)
    ensures a == b
  {
    assert a == name[..|a|] && b == name[..|b|];
    NoLonger(a, b, name);
    NoLonger(b, a, name);
  }

  lemma NoLonger(a: string, b: string, name: string)
    requires MARK !in b && (a == name || a + [MARK] <= name) && b <= name
    ensures |b| <= |a|
  {
    if a + [MARK] <= name {
      assert name[|a|] == MARK;
      assert forall k | 0 <= k < |b| :: name[k] == b[k];
    }
  }

  /** With a mark in it, an id can belong to another request's group: cancelling `a`
      also cancels the unrelated request `a#b`. */
  lemma MarkedIdIsCaught()
    ensures Reaches("a", "a" + [MARK] + "b")
  {
    assert ("a" + [MARK]) <= "a" + [MARK] + "b";
  }

  // ----- the state -----

  datatype State = State(active: set<string>, cancelled: set<string>)

  datatype Op = Begin(id: string) | Cancel(id: string) | Clear(id: string) | Close

  function Targets(active: set<string>, id: string): set<string> { set name | name in active && Reaches(id, name) }

  /** One operation; the lock makes each of them atomic. */
  function Step(s: State, op: Op): State {
    match op
    case Begin(id) => State(s.active + {id}, s.cancelled)
    case Cancel(id) => State(s.active, s.cancelled + Targets(s.active, id))
    case Clear(id) => State(s.active - {id}, s.cancelled - {id})
    case Close => State({}, {})
  }

  function Run(ops: seq<Op>, n: nat): State
    requires n <= |ops|
  {
    if n == 0 then State({}, {}) else Step(Run(ops, n - 1), ops[n - 1])
  }

  /** Main result: in every run the cancelled requests are in flight. */
  lemma {:induction false} CancelledAreActive(ops: seq<Op>, n: nat)
    requires n <= |ops|
    ensures Run(ops, n).cancelled <= Run(ops, n).active
  {
    if n > 0 { CancelledAreActive(ops, n - 1); }
  }

  /** An operation that ends a request: it, or everything, is cleared. */
  predicate Ends(op: Op, id: string) { op == Clear(id) || op == Close }

  /** Main result: a request is in flight exactly when it began and, since then, neither it
      was cleared nor everything closed. */
  lemma {:induction false} ActiveIff(ops: seq<Op>, n: nat, name: string)
    requires n <= |ops|
    ensures name in Run(ops, n).active <==>
              exists m :: 0 <= m < n && ops[m] == Begin(name) && forall k | m < k < n :: ops[k] != Clear(name) && ops[k] != Close
  {
    if n > 0 {
      ActiveIff(ops, n - 1, name);
      var last := ops[n - 1];
      if last == Begin(name) {
        assert 0 <= n - 1 < n && ops[n - 1] == Begin(name);
      } else if last != Clear(name) && last != Close && name in Run(ops, n - 1).active {
        var m :| 0 <= m < n - 1 && ops[m] == Begin(name) && forall k | m < k < n - 1 :: ops[k] != Clear(name) && ops[k] != Close;
        assert forall k | m < k < n :: ops[k] != Clear(name) && ops[k] != Close;
      }
    }
  }

  /** A request that was in flight when its group was cancelled stays cancelled until it
      is cleared or the state is closed. */
  lemma {:induction false} CancelSticks(ops: seq<Op>, m: nat, n: nat, id: string, name: string)
    requires m < n <= |ops| && ops[m] == Cancel(id) && name in Run(ops, m).active && Reaches(id, name)
    requires forall k | m < k < n :: !Ends(ops[k], name)
    ensures name in Run(ops, n).cancelled
  {
    if n == m + 1 {
      assert Run(ops, n) == Step(Run(ops, m), ops[m]);
    } else {
      CancelSticks(ops, m, n - 1, id, name);
      assert Run(ops, n) == Step(Run(ops, n - 1), ops[n - 1]);
    }
  }

  /** A request is cancelled only if, since it last ended, some cancellation that reaches
      it came while it was in flight. */
  lemma {:induction false} OnlyCancelCancels(ops: seq<Op>, n: nat, name: string)
    requires n <= |ops| && name in Run(ops, n).cancelled
    ensures exists m :: 0 <= m < n && ops[m].Cancel? && Reaches(ops[m].id, name) && name in Run(ops, m).active
                     && forall k | m < k < n :: !Ends(ops[k], name)
  {
    var last := ops[n - 1];
    if last.Cancel? && name in Targets(Run(ops, n - 1).active, last.id) {
      assert 0 <= n - 1 < n && ops[n - 1].Cancel? && Reaches(ops[n - 1].id, name) && name in Run(ops, n - 1).active;
    } else {
      OnlyCancelCancels(ops, n - 1, name);
      assert !Ends(last, name);
      var m :| 0 <= m < n - 1 && ops[m].Cancel? && Reaches(ops[m].id, name) && name in Run(ops, m).active
               && forall k | m < k < n - 1 :: !Ends(ops[k], name);
      assert forall k | m < k < n :: !Ends(ops[k], name);
    }
  }

  class RequestState {
    var active: set<string>
    var cancelled: set<string>

    ghost function Value(): State
      reads this
    {
      State(active, cancelled)
    }

    constructor ()
      ensures Value() == State({}, {})
    {
      active, cancelled := {}, {};
    }

    method CancelRequest(id: string) returns (found: bool)
      modifies this
      ensures Value() == Step(old(Value()), Cancel(id))
      ensures found <==> exists name :: name in old(active) && Reaches(id, name)
    {
      var targets := set name | name in active && Reaches(id, name);
      if targets == {} {
        assert forall name | name in active && Reaches(id, name) :: name in targets;
        return false;
      }
      var reached :| reached in targets;
      cancelled := cancelled + targets;
      return true;
    }

    method BeginRequest(id: string)
      modifies this
      ensures Value() == Step(old(Value()), Begin(id))
    {
      active := active + {id};
    }

    method ClearRequest(id: string)
      modifies this
      ensures Value() == Step(old(Value()), Clear(id))
    {
      active := active - {id};
      cancelled := cancelled - {id};
    }

    method CloseAll()
      modifies this
      ensures Value() == Step(old(Value()), Close)
    {
      active, cancelled := {}, {};
    }
  }
}
