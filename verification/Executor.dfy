/**
 The executor of resilience/executor.go: bulkhead around circuit breaker around retry around the
 function. Any number of calls interleave; each passes the bulkhead's steps, asks the breaker, runs its
 retry loop, reports one result to the breaker and leaves.
 */
module Executors {
  import opened Common
  import CB = CircuitBreakers
  import BH = Bulkheads
  import R = Retries

  datatype Config = Config(breaker: CB.Config, bulkhead: BH.Config, maxAttempts: int) {
    predicate Valid() {
      breaker.Valid() && bulkhead.maxConcurrent > 0 && maxAttempts > 0
    }
  }

  /** Where a call stands inside the bulkhead; `calls` is how often it has called the function. */
  datatype Inner =
    | Outside
    | Refused
    | Trying(calls: nat)
    | Decided(ok: bool, calls: nat)
    | Recorded(ok: bool, calls: nat)

  datatype Exec = Exec(bulk: BH.Bulk, breaker: CB.Breaker, inner: seq<Inner>)

  const IDLE := Exec(BH.IDLE, CB.FRESH, [])

  datatype Answer = Succeeds | FailsRetryable | FailsForGood

  datatype Event =
    | Enter
    | Gate(call: nat, to: BH.Stage)
    | Ask(call: nat, at: int)
    | Attempt(call: nat, answer: Answer)
    | Cancel(call: nat)
    | Record(call: nat, ok: bool, at: int)
    | Reset(at: int)

  predicate Busy(i: Inner) {
    i.Trying? || i.Decided?
  }

  predicate Inside(s: Exec, call: nat) {
    call < |s.inner| == |s.bulk.calls| && s.bulk.calls[call] == BH.Running
  }

  predicate Enabled(c: Config, s: Exec, e: Event) {
    match e
    case Enter => true
    case Gate(call, to) =>
      && BH.Enabled(c.bulkhead, s.bulk, BH.Move(call, to))
      && (to == BH.Returned ==> call < |s.inner| && (s.inner[call].Refused? || s.inner[call].Recorded?))
    case Ask(call, _) => Inside(s, call) && s.inner[call] == Outside
    case Attempt(call, _) => Inside(s, call) && s.inner[call].Trying?
    case Cancel(call) => Inside(s, call) && s.inner[call].Trying?
    case Record(call, ok, _) => Inside(s, call) && s.inner[call].Decided? && s.inner[call].ok == ok
    case Reset(_) => true
  }

  /** One round of the retry loop after `calls` attempts. */
  function AfterAttempt(c: Config, calls: nat, answer: Answer): Inner {
    match answer
    case Succeeds => Decided(true, calls + 1)
    case FailsForGood => Decided(false, calls + 1)
    case FailsRetryable => if calls + 1 >= c.maxAttempts then Decided(false, calls + 1) else Trying(calls + 1)
  }

  function Step(c: Config, s: Exec, e: Event): Exec
    requires Enabled(c, s, e)
  {
    match e
    case Enter => s.(bulk := BH.Step(s.bulk, BH.Enter), inner := s.inner + [Outside])
    case Gate(call, to) => s.(bulk := BH.Step(s.bulk, BH.Move(call, to)))
    case Ask(call, at) =>
      var (admission, breaker) := CB.Admit(c.breaker, s.breaker, at);
      s.(breaker := breaker, inner := s.inner[call := if admission == CB.Admitted then Trying(0) else Refused])
    case Attempt(call, answer) => s.(inner := s.inner[call := AfterAttempt(c, s.inner[call].calls, answer)])
    case Cancel(call) => s.(inner := s.inner[call := Decided(false, s.inner[call].calls)])
    case Record(call, ok, at) =>
      s.(breaker := CB.Report(c.breaker, s.breaker, ok, at), inner := s.inner[call := Recorded(ok, s.inner[call].calls)])
    case Reset(at) => s.(breaker := CB.Step(c.breaker, s.breaker, CB.Reset(at)))
  }

  ghost predicate Legal(c: Config, h: seq<Event>)
    decreases |h|, 0
  {
    h == [] || (Legal(c, Front(h)) && Enabled(c, Run(c, Front(h)), Last(h)))
  }

  ghost function Run(c: Config, h: seq<Event>): Exec
    requires Legal(c, h)
    decreases |h|, 1
  {
    if h == [] then IDLE else Step(c, Run(c, Front(h)), Last(h))
  }

  // ----- each layer sees a history of its own

  function BreakerEvents(e: Event): seq<CB.Event> {
    match e
    case Ask(_, at) => [CB.Arrival(at)]
    case Record(_, ok, at) => [CB.Result(ok, at)]
    case Reset(at) => [CB.Reset(at)]
    case _ => []
  }

  function BulkheadEvents(e: Event): seq<BH.Event> {
    match e
    case Enter => [BH.Enter]
    case Gate(call, to) => [BH.Move(call, to)]
    case _ => []
  }

  function BreakerSide(h: seq<Event>): seq<CB.Event> {
    if h == [] then [] else BreakerSide(Front(h)) + BreakerEvents(Last(h))
  }

  function BulkheadSide(h: seq<Event>): seq<BH.Event> {
    if h == [] then [] else BulkheadSide(Front(h)) + BulkheadEvents(Last(h))
  }

  /** The breaker inside the executor is the one its own history makes: every law of the breaker holds
      there. */
  lemma {:induction false} BreakerLayer(c: Config, h: seq<Event>)
    requires Legal(c, h)
    ensures Run(c, h).breaker == CB.Run(c.breaker, BreakerSide(h))
  {
    if h != [] {
      BreakerLayer(c, Front(h));
      var b, es := BreakerSide(Front(h)), BreakerEvents(Last(h));
      if es == [] {
        assert b + es == b;
      } else {
        Extend(b, es[0]);
      }
    }
  }

  /** And so is the bulkhead. */
  lemma {:induction false} BulkheadLayer(c: Config, h: seq<Event>)
    requires Legal(c, h)
    ensures BH.Legal(c.bulkhead, BulkheadSide(h)) && Run(c, h).bulk == BH.Run(c.bulkhead, BulkheadSide(h))
  {
    if h != [] {
      BulkheadLayer(c, Front(h));
      var k, es := BulkheadSide(Front(h)), BulkheadEvents(Last(h));
      if es == [] {
        assert k + es == k;
      } else {
        assert es == [es[0]];
        BH.Then(c.bulkhead, k, es[0]);
      }
    }
  }

  // ----- what each call did

  /** Calls of the function made for call `i`. */
  function FunctionCalls(h: seq<Event>, i: nat): nat {
    if h == [] then 0 else FunctionCalls(Front(h), i) + Hit(Last(h).Attempt? && Last(h).call == i)
  }

  /** Results reported to the breaker for call `i`. */
  function Records(h: seq<Event>, i: nat): nat {
    if h == [] then 0 else Records(Front(h), i) + Hit(Last(h).Record? && Last(h).call == i)
  }

  /** Whether some attempt of call `i` succeeded. */
  function Succeeded(h: seq<Event>, i: nat): bool {
    h != [] && (Succeeded(Front(h), i) || (Last(h).Attempt? && Last(h).call == i && Last(h).answer == Succeeds))
  }

  function CallsOf(i: Inner): nat {
    if i.Outside? || i.Refused? then 0 else i.calls
  }

  /** Before its function may run, and after a refusal, a call has not reached the breaker. */
  predicate NotLetIn(s: BH.Stage) {
    s == BH.Entered || s == BH.Waiting || s == BH.Taken || s == BH.Refused || s == BH.Rejected || s == BH.Cancelled
  }

  predicate SoundCall(c: Config, stage: BH.Stage, i: Inner) {
    && (NotLetIn(stage) ==> i == Outside)
    && (!NotLetIn(stage) && stage != BH.Running ==> i.Refused? || i.Recorded?)
    && CallsOf(i) <= c.maxAttempts
    && (i.Trying? ==> i.calls < c.maxAttempts)
  }

  predicate Sound(c: Config, s: Exec) {
    |s.inner| == |s.bulk.calls| && forall i | 0 <= i < |s.inner| :: SoundCall(c, s.bulk.calls[i], s.inner[i])
  }

  lemma SoundStep(c: Config, s: Exec, e: Event)
    requires c.Valid() && Enabled(c, s, e) && Sound(c, s)
    ensures Sound(c, Step(c, s, e))
  {
    var n := Step(c, s, e);
    forall i | 0 <= i < |n.inner| ensures SoundCall(c, n.bulk.calls[i], n.inner[i]) {
      assert i < |s.inner| ==> SoundCall(c, s.bulk.calls[i], s.inner[i]);
    }
  }

  lemma {:induction false} AlwaysSound(c: Config, h: seq<Event>)
    requires c.Valid() && Legal(c, h)
    ensures Sound(c, Run(c, h))
  {
    if h != [] {
      AlwaysSound(c, Front(h));
      SoundStep(c, Run(c, Front(h)), Last(h));
    }
  }

  lemma {:induction false} CallHistory(c: Config, h: seq<Event>, i: nat)
    requires c.Valid() && Legal(c, h)
    ensures i >= |Run(c, h).inner| ==> FunctionCalls(h, i) == 0 && Records(h, i) == 0 && !Succeeded(h, i)
    ensures i < |Run(c, h).inner| ==>
              && FunctionCalls(h, i) == CallsOf(Run(c, h).inner[i])
              && Records(h, i) == Hit(Run(c, h).inner[i].Recorded?)
              && (Run(c, h).inner[i].Decided? || Run(c, h).inner[i].Recorded? ==>
                    Run(c, h).inner[i].ok == Succeeded(h, i))
              && (Succeeded(h, i) ==> Run(c, h).inner[i].Decided? || Run(c, h).inner[i].Recorded?)
  {
    if h != [] {
      AlwaysSound(c, Front(h));
      CallHistory(c, Front(h), i);
    }
  }

  /** Over every interleaving: a call that has left made at most maxAttempts calls of the function and
      reported exactly one result, the one its retry loop ended with; a call that the bulkhead or the
      breaker refused made none and reported none. */
  lemma CompositionLaw(c: Config, h: seq<Event>, i: nat)
    requires c.Valid() && Legal(c, h) && i < |Run(c, h).inner|
    ensures |Run(c, h).inner| == |Run(c, h).bulk.calls|
    ensures FunctionCalls(h, i) <= c.maxAttempts
    ensures NotLetIn(Run(c, h).bulk.calls[i]) || Run(c, h).inner[i].Refused? ==>
              FunctionCalls(h, i) == 0 && Records(h, i) == 0
    ensures Run(c, h).bulk.calls[i] == BH.Finished ==>
              Run(c, h).inner[i].Refused? || (Records(h, i) == 1 && Run(c, h).inner[i] == Recorded(Succeeded(h, i), FunctionCalls(h, i)))
  {
    AlwaysSound(c, h);
    CallHistory(c, h, i);
    assert SoundCall(c, Run(c, h).bulk.calls[i], Run(c, h).inner[i]);
  }

  /** Never do more than maxConcurrent calls run their function. */
  lemma AtMostMaxConcurrent(c: Config, h: seq<Event>)
    requires c.Valid() && Legal(c, h)
    ensures BH.Count(Run(c, h).bulk, BH.Running) <= c.bulkhead.maxConcurrent
  {
    BulkheadLayer(c, h);
    BH.RunningBounded(c.bulkhead, BulkheadSide(h));
  }

  /** A reset may come at any time and closes the breaker. */
  lemma ResetCloses(c: Config, h: seq<Event>, at: int)
    requires Legal(c, h)
    ensures Legal(c, h + [Reset(at)]) && Run(c, h + [Reset(at)]).breaker.state == CB.Closed
  {
    Extend(h, Reset(at));
  }

  // ----- the retry loop inside the executor

  lemma GoOn(c: Config, h: seq<Event>, e: Event) returns (n: seq<Event>)
    requires Legal(c, h) && Enabled(c, Run(c, h), e)
    ensures Legal(c, n) && Run(c, n) == Step(c, Run(c, h), e) && h <= n
  {
    Extend(h, e);
    n := h + [e];
  }

  function AnswerOf(r: R.Config, a: R.Answer): Answer {
    if a.Ok? then Succeeds else if R.IsRetryable(r, a.error) then FailsRetryable else FailsForGood
  }

  /** Whatever the retry loop does for a script is a legal run of the call here, which ends in its result
      and its number of calls and touches nothing else. */
  lemma {:induction false} RetryIsLegal(c: Config, h: seq<Event>, i: nat, r: R.Config, s: R.Script,
                                         out: R.Outcome, calls: nat)
    returns (n: seq<Event>)
    requires c.Valid() && Legal(c, h) && Inside(Run(c, h), i) && r.maxAttempts == c.maxAttempts
    requires Run(c, h).inner[i].Trying? && Run(c, h).inner[i].calls <= calls && R.Explains(r, s, out, calls)
    requires Run(c, h).inner[i].calls == calls ==> out.ContextError?
    ensures Legal(c, n) && h <= n
    ensures Run(c, n) == Run(c, h).(inner := Run(c, h).inner[i := Decided(out.Success?, calls)])
    decreases calls - Run(c, h).inner[i].calls
  {
    var k := Run(c, h).inner[i].calls;
    if k == calls {
      n := GoOn(c, h, Cancel(i));
    } else {
      n := GoOn(c, h, Attempt(i, AnswerOf(r, s.answers(k + 1))));
      if k + 1 < calls {
        assert R.Continues(r, s, k + 1);
        n := RetryIsLegal(c, n, i, r, s, out, calls);
      } else if out.ContextError? {
        n := GoOn(c, n, Cancel(i));
      }
    }
  }

  // ----- a function that always fails

  function TotalCalls(h: seq<Event>): nat {
    if h == [] then 0 else TotalCalls(Front(h)) + Hit(Last(h).Attempt?)
  }

  function TotalRecords(h: seq<Event>): nat {
    if h == [] then 0 else TotalRecords(Front(h)) + Hit(Last(h).Record?)
  }

  function BusyCalls(i: Inner): nat {
    if Busy(i) then i.calls else 0
  }

  /** Calls of the function by calls that have not reported yet. */
  function Unreported(inner: seq<Inner>): nat {
    if inner == [] then 0 else Unreported(Front(inner)) + BusyCalls(Last(inner))
  }

  lemma {:induction false} UnreportedChanges(inner: seq<Inner>, k: nat, to: Inner)
    requires k < |inner|
    ensures Unreported(inner[k := to]) == Unreported(inner) - BusyCalls(inner[k]) + BusyCalls(to)
  {
    if k == |inner| - 1 {
      assert Front(inner[k := to]) == Front(inner);
    } else {
      UnreportedChanges(Front(inner), k, to);
      assert Front(inner[k := to]) == Front(inner)[k := to];
    }
  }

  lemma {:induction false} NobodyBusy(inner: seq<Inner>)
    requires forall k | 0 <= k < |inner| :: !Busy(inner[k])
    ensures Unreported(inner) == 0
  {
    if inner != [] {
      NobodyBusy(Front(inner));
    }
  }

  /** Every attempt fails retryably, no context ends and nobody resets the breaker. */
  predicate AlwaysFailing(h: seq<Event>) {
    forall k | 0 <= k < |h| :: !h[k].Cancel? && !h[k].Reset? && (h[k].Attempt? ==> h[k].answer == FailsRetryable)
  }

  /** Under such a function a call reports only after all its attempts. */
  predicate Exhausted(c: Config, s: Exec) {
    forall k | 0 <= k < |s.inner| && s.inner[k].Decided? :: !s.inner[k].ok && s.inner[k].calls == c.maxAttempts
  }

  /** maxAttempts for every reported result. */
  function Owed(c: Config, h: seq<Event>): int {
    if h == [] then 0 else Owed(c, Front(h)) + if Last(h).Record? then c.maxAttempts else 0
  }

  lemma {:induction false} OwedIsProduct(c: Config, h: seq<Event>)
    ensures Owed(c, h) == c.maxAttempts * TotalRecords(h)
  {
    if h != [] {
      OwedIsProduct(c, Front(h));
      OneMore(TotalRecords(Front(h)), c.maxAttempts);
    }
  }

  predicate NoneOk(h: seq<Event>) {
    h == [] || (NoneOk(Front(h)) && !Last(h).Reset? && (Last(h).Record? ==> !Last(h).ok))
  }

  lemma FailingStep(c: Config, s: Exec, e: Event)
    requires c.Valid() && Enabled(c, s, e) && Sound(c, s) && Exhausted(c, s)
    requires !e.Cancel? && !e.Reset? && (e.Attempt? ==> e.answer == FailsRetryable)
    ensures Exhausted(c, Step(c, s, e))
    ensures Unreported(Step(c, s, e).inner) + (if e.Record? then c.maxAttempts else 0) == Unreported(s.inner) + Hit(e.Attempt?)
    ensures e.Record? ==> !e.ok
  {
    var n := Step(c, s, e);
    match e {
      case Enter => Extend(s.inner, Outside);
      case Ask(call, _) => UnreportedChanges(s.inner, call, n.inner[call]);
      case Attempt(call, _) => UnreportedChanges(s.inner, call, n.inner[call]);
      case Record(call, _, _) => UnreportedChanges(s.inner, call, n.inner[call]);
      case _ =>
    }
  }

  lemma {:induction false} FailingBooks(c: Config, h: seq<Event>)
    requires c.Valid() && Legal(c, h) && AlwaysFailing(h)
    ensures Exhausted(c, Run(c, h)) && NoneOk(h)
    ensures TotalCalls(h) == Owed(c, h) + Unreported(Run(c, h).inner)
  {
    if h != [] {
      var p, e := Front(h), Last(h);
      assert forall k | 0 <= k < |p| :: p[k] == h[k];
      FailingBooks(c, p);
      AlwaysSound(c, p);
      assert e == h[|h| - 1];
      FailingStep(c, Run(c, p), e);
    }
  }

  lemma {:induction false} EveryRecordTrails(h: seq<Event>)
    requires NoneOk(h)
    ensures CB.TrailingFailures(BreakerSide(h)) == TotalRecords(h)
  {
    if h != [] {
      EveryRecordTrails(Front(h));
      var b, es := BreakerSide(Front(h)), BreakerEvents(Last(h));
      if es == [] {
        assert b + es == b;
      } else {
        Extend(b, es[0]);
      }
    }
  }

  lemma OpeningRecord(c: CB.Config, before: seq<CB.Event>, after: seq<CB.Event>)
    requires c.Valid() && (after == before || exists x :: after == before + [x])
    requires CB.Run(c, before).state == CB.Closed && CB.Run(c, after).state == CB.Open
    ensures CB.TrailingFailures(after) == c.maxFailures
  {
    var x :| after == before + [x];
    CB.OpensExactly(c, before, x);
  }

  lemma CallsSoFar(c: Config, h: seq<Event>)
    requires c.Valid() && Legal(c, h) && AlwaysFailing(h)
    ensures TotalCalls(h) == c.maxAttempts * CB.TrailingFailures(BreakerSide(h)) + Unreported(Run(c, h).inner)
  {
    FailingBooks(c, h);
    EveryRecordTrails(h);
    OwedIsProduct(c, h);
  }

  lemma FailuresAtOpening(c: Config, h: seq<Event>, e: Event)
    requires c.Valid() && Legal(c, h + [e])
    requires Legal(c, h) && Run(c, h).breaker.state == CB.Closed && Run(c, h + [e]).breaker.state == CB.Open
    ensures CB.TrailingFailures(BreakerSide(h + [e])) == c.breaker.maxFailures
  {
    Extend(h, e);
    BreakerLayer(c, h);
    BreakerLayer(c, h + [e]);
    OpeningRecord(c.breaker, BreakerSide(h), BreakerSide(h + [e]));
  }

  /** When the circuit opens, the function has been called maxFailures times maxAttempts, and further as often
      as the calls have called it that are still at work: not at all for a sequential caller. */
  lemma CallsBeforeOpening(c: Config, h: seq<Event>, e: Event)
    requires c.Valid() && Legal(c, h + [e]) && AlwaysFailing(h + [e])
    requires Legal(c, h) && Run(c, h).breaker.state == CB.Closed && Run(c, h + [e]).breaker.state == CB.Open
    ensures TotalCalls(h + [e]) == c.breaker.maxFailures * c.maxAttempts + Unreported(Run(c, h + [e]).inner)
    ensures (forall k | 0 <= k < |Run(c, h + [e]).inner| :: !Busy(Run(c, h + [e]).inner[k])) ==>
              Unreported(Run(c, h + [e]).inner) == 0
  {
    CallsSoFar(c, h + [e]);
    FailuresAtOpening(c, h, e);
    if forall k | 0 <= k < |Run(c, h + [e]).inner| :: !Busy(Run(c, h + [e]).inner[k]) {
      NobodyBusy(Run(c, h + [e]).inner);
    }
  }

  // ----- the object

  datatype Result = Done(outcome: R.Outcome) | BulkheadRefused(why: BH.Entry) | BreakerRefused(reason: CB.Admission)

  /** Event `k` of a breaker's history is an arrival at `at` that was answered with `a`. */
  predicate Asked(c: CB.Config, h: seq<CB.Event>, k: nat, at: int, a: CB.Admission) {
    k < |h| && h[k] == CB.Arrival(at) && CB.Admit(c, CB.Run(c, h[..k]), at).0 == a
  }

  lemma AskedStays(c: CB.Config, h: seq<CB.Event>, n: seq<CB.Event>, k: nat, at: int, a: CB.Admission)
    requires Asked(c, h, k, at, a) && h <= n
    ensures Asked(c, n, k, at, a)
  {
    assert n[..k] == h[..k];
  }

  class Executor {
    const circuitBreaker: CB.CircuitBreaker?
    const bulkhead: BH.Bulkhead?
    const retry: Option<R.Config>
    /** No other call uses these objects meanwhile. */
    const alone: bool

    constructor (circuitBreaker: CB.CircuitBreaker?, bulkhead: BH.Bulkhead?, retry: Option<R.Config>, alone: bool)
      ensures this.circuitBreaker == circuitBreaker && this.bulkhead == bulkhead && this.retry == retry
      ensures this.alone == alone
    {
      this.circuitBreaker, this.bulkhead, this.retry, this.alone := circuitBreaker, bulkhead, retry, alone;
    }

    ghost predicate Valid()
      reads circuitBreaker, bulkhead
    {
      && (circuitBreaker != null ==> circuitBreaker.Valid())
      && (bulkhead != null ==> bulkhead.Valid())
      && (retry.Some? ==> R.Valid(retry.value))
    }

    /** Other calls ask the breaker, report to it and reset it. */
    method OthersAtBreaker()
      requires Valid()
      modifies circuitBreaker
      ensures Valid()
      ensures circuitBreaker != null ==> old(circuitBreaker.history) <= circuitBreaker.history
      ensures circuitBreaker != null && alone ==> circuitBreaker.history == old(circuitBreaker.history)
    {
      var n: nat := *;
      while n > 0 && !alone && circuitBreaker != null
        invariant Valid()
        invariant circuitBreaker != null ==> old(circuitBreaker.history) <= circuitBreaker.history
        invariant circuitBreaker != null && alone ==> circuitBreaker.history == old(circuitBreaker.history)
      {
        var e: CB.Event := *;
        match e {
          case Arrival(at) => var _ := circuitBreaker.BeforeRequest(at);
          case Result(ok, at) => circuitBreaker.AfterRequest(ok, at);
          case Reset(at) => circuitBreaker.ResetBreaker(at);
        }
        n := n - 1;
      }
    }

    /** Other calls take slots of the bulkhead and give back their own, of which there are all but one. */
    method OthersAtBulkhead() returns (ghost taken: int)
      requires Valid() && (bulkhead != null ==> bulkhead.slots > 0)
      modifies bulkhead
      ensures Valid()
      ensures bulkhead != null ==>
                bulkhead.slots == old(bulkhead.slots) + taken > 0 && bulkhead.active == old(bulkhead.active) + taken
      ensures alone ==> taken == 0
      ensures alone && bulkhead != null ==>
                bulkhead.totalCalls == old(bulkhead.totalCalls) && bulkhead.rejected == old(bulkhead.rejected)
    {
      taken := 0;
      var n: nat := *;
      while n > 0 && !alone && bulkhead != null
        invariant Valid()
        invariant bulkhead != null ==>
                    bulkhead.slots == old(bulkhead.slots) + taken > 0 && bulkhead.active == old(bulkhead.active) + taken
        invariant alone ==> taken == 0
        invariant alone && bulkhead != null ==>
                    bulkhead.totalCalls == old(bulkhead.totalCalls) && bulkhead.rejected == old(bulkhead.rejected)
      {
        var release: bool := *;
        if release && bulkhead.slots > 1 {
          bulkhead.Release();
          taken := taken - 1;
        } else {
          var ready: BH.Ready := *;
          var entry := bulkhead.Acquire(ready);
          taken := taken + Hit(entry.Admitted?);
        }
        n := n - 1;
      }
    }

    /** The function inside the retry layer, when that is enabled. */
    method Innermost(s: R.Script) returns (r: R.Outcome, calls: nat)
      requires retry.Some? ==> R.Valid(retry.value)
      ensures retry.Some? ==> R.Explains(retry.value, s, r, calls)
      ensures retry == None ==> calls == 1 && r == if s.answers(1).Ok? then R.Success else R.FunctionError(s.answers(1).error)
    {
      if retry.Some? {
        r, calls := R.ExecuteWithContext(retry.value, s);
      } else {
        calls := 1;
        r := if s.answers(1).Ok? then R.Success else R.FunctionError(s.answers(1).error);
      }
    }

    /** What one call has done to the breaker, from `before` to its history now: it has asked, at a point
        that was answered with `a`, and, if let in, later reported `ok`. Alone, that is all. */
    ghost predicate WentThrough(before: seq<CB.Event>, asked: nat, told: nat, a: CB.Admission,
                                start: int, ok: bool, end: int)
      requires circuitBreaker != null
      reads circuitBreaker
    {
      var h := circuitBreaker.history;
      && before <= h && |before| <= asked && Asked(circuitBreaker.config, h, asked, start, a)
      && (a.Admitted? ==> asked < told < |h| && h[told] == CB.Result(ok, end))
      && (alone ==> h == before + [CB.Arrival(start)] + if a.Admitted? then [CB.Result(ok, end)] else [])
    }

    method Ask(start: int) returns (a: CB.Admission, ghost asked: nat)
      requires Valid() && circuitBreaker != null
      modifies circuitBreaker
      ensures Valid() && old(circuitBreaker.history) <= circuitBreaker.history
      ensures |old(circuitBreaker.history)| <= asked && Asked(circuitBreaker.config, circuitBreaker.history, asked, start, a)
      ensures a == CB.Admitted <==> CB.LetsThrough(circuitBreaker.config, circuitBreaker.history[..asked], start)
      ensures alone ==> asked == |old(circuitBreaker.history)|
      ensures alone ==> circuitBreaker.history == old(circuitBreaker.history) + [CB.Arrival(start)]
    {
      OthersAtBreaker();
      ghost var before := circuitBreaker.history;
      asked := |before|;
      a := circuitBreaker.BeforeRequest(start);
      Extend(before, CB.Arrival(start));
      ghost var answered := circuitBreaker.history;
      assert answered[..asked] == before;
      OthersAtBreaker();
      AskedStays(circuitBreaker.config, answered, circuitBreaker.history, asked, start, a);
      assert circuitBreaker.history[..asked] == before;
    }

    method Tell(ok: bool, end: int) returns (ghost told: nat)
      requires Valid() && circuitBreaker != null
      modifies circuitBreaker
      ensures Valid() && old(circuitBreaker.history) <= circuitBreaker.history
      ensures |old(circuitBreaker.history)| <= told < |circuitBreaker.history|
      ensures circuitBreaker.history[told] == CB.Result(ok, end)
      ensures alone ==> circuitBreaker.history == old(circuitBreaker.history) + [CB.Result(ok, end)]
    {
      OthersAtBreaker();
      told := |circuitBreaker.history|;
      circuitBreaker.AfterRequest(ok, end);
      OthersAtBreaker();
    }

    method ThroughBreaker(s: R.Script, start: int, end: int)
      returns (r: Result, calls: nat, ghost asked: nat, ghost told: nat)
      requires Valid()
      modifies circuitBreaker
      ensures Valid()
      ensures !r.BulkheadRefused? && (r.BreakerRefused? ==> circuitBreaker != null)
      ensures circuitBreaker != null ==>
                && asked < |circuitBreaker.history|
                && (r.Done? <==> CB.LetsThrough(circuitBreaker.config, circuitBreaker.history[..asked], start))
                && (alone ==> circuitBreaker.history[..asked] == old(circuitBreaker.history))
      ensures r.BreakerRefused? ==> circuitBreaker != null && calls == 0 && r.reason != CB.Admitted
                                    && WentThrough(old(circuitBreaker.history), asked, told, r.reason, start, false, end)
      ensures r.Done? && retry.Some? ==> R.Explains(retry.value, s, r.outcome, calls)
      ensures r.Done? && retry == None ==>
                calls == 1 && r.outcome == if s.answers(1).Ok? then R.Success else R.FunctionError(s.answers(1).error)
      ensures r.Done? && circuitBreaker != null ==>
                WentThrough(old(circuitBreaker.history), asked, told, CB.Admitted, start, r.outcome == R.Success, end)
    {
      asked, told := 0, 0;
      if circuitBreaker != null {
        var admission;
        admission, asked := Ask(start);
        if admission != CB.Admitted {
          return BreakerRefused(admission), 0, asked, told;
        }
      }
      var outcome;
      outcome, calls := Innermost(s);
      if circuitBreaker != null {
        ghost var answered := circuitBreaker.history;
        told := Tell(outcome == R.Success, end);
        assert circuitBreaker.history[..asked] == answered[..asked];
        AskedStays(circuitBreaker.config, answered, circuitBreaker.history, asked, start, CB.Admitted);
      }
      r := Done(outcome);
    }

    /** ExecuteWithContext, started at `start` and ended at `end`, while other calls use the same breaker
        and bulkhead: whichever layers are enabled, a refusal calls nothing and reports nothing, an admitted
        call reports its retry result to the breaker, and the bulkhead gets its slot back; `taken` is what
        others have taken meanwhile. */
    method Execute(s: R.Script, ready: BH.Ready, start: int, end: int)
      returns (r: Result, calls: nat, ghost asked: nat, ghost told: nat, ghost taken: int)
      requires Valid()
      modifies circuitBreaker, bulkhead
      ensures Valid()
      ensures bulkhead != null ==>
                bulkhead.slots == old(bulkhead.slots) + taken && bulkhead.active == old(bulkhead.active) + taken
      ensures bulkhead != null && alone ==>
                taken == 0 && bulkhead.totalCalls == old(bulkhead.totalCalls) + 1
                && bulkhead.rejected == old(bulkhead.rejected) + Hit(r.BulkheadRefused? && r.why != BH.ContextDone)
      ensures r.BulkheadRefused? <==>
                bulkhead != null
                && (old(bulkhead.slots) == bulkhead.config.maxConcurrent || (!bulkhead.config.failFast && ready != BH.Slot))
      ensures r.BulkheadRefused? ==>
                && calls == 0
                && r.why == (if bulkhead.config.failFast then BH.Full
                             else if ready == BH.Context then BH.ContextDone else BH.TimedOut)
                && (circuitBreaker != null ==> circuitBreaker.history == old(circuitBreaker.history))
      ensures !r.BulkheadRefused? && circuitBreaker == null ==> r.Done?
      ensures !r.BulkheadRefused? && circuitBreaker != null ==>
                && asked < |circuitBreaker.history|
                && (r.Done? <==> CB.LetsThrough(circuitBreaker.config, circuitBreaker.history[..asked], start))
                && (alone ==> circuitBreaker.history[..asked] == old(circuitBreaker.history))
      ensures r.BreakerRefused? ==> circuitBreaker != null && calls == 0 && r.reason != CB.Admitted
                                    && WentThrough(old(circuitBreaker.history), asked, told, r.reason, start, false, end)
      ensures r.Done? && retry.Some? ==> R.Explains(retry.value, s, r.outcome, calls)
      ensures r.Done? && retry == None ==>
                calls == 1 && r.outcome == if s.answers(1).Ok? then R.Success else R.FunctionError(s.answers(1).error)
      ensures r.Done? && circuitBreaker != null ==>
                WentThrough(old(circuitBreaker.history), asked, told, CB.Admitted, start, r.outcome == R.Success, end)
    {
      calls, asked, told, taken := 0, 0, 0, 0;
      if bulkhead != null {
        var entry := bulkhead.Acquire(ready);
        if entry != BH.Admitted {
          return BulkheadRefused(entry), 0, asked, told, taken;
        }
      }
      r, calls, asked, told := ThroughBreaker(s, start, end);
      taken := OthersAtBulkhead();
      if bulkhead != null {
        bulkhead.Release();
      }
    }
  }
}
