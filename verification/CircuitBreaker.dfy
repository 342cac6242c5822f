/**
 The circuit breaker of resilience/circuit_breaker.go.

 `BeforeRequest` and `AfterRequest` are two separate critical sections of one mutex, so a
 history of a breaker is any sequence of arrivals, reports and manual resets: the report of a
 call may come at any later point, in any state of the breaker. Times are nanoseconds of one
 monotone clock, read inside the critical section.
 */
module CircuitBreakers {
  import opened Common

  const SUCCESSES_TO_CLOSE := 3

  datatype State = Closed | Open | HalfOpen

  datatype Config = Config(maxFailures: int, timeout: int) {
    predicate Valid() {
      maxFailures > 0 && timeout > 0
    }
  }

  /** The defaults that NewCircuitBreaker puts in place of settings that are not positive. */
  function Normalize(c: Config): (r: Config)
    ensures r.Valid()
    ensures r.maxFailures == if c.maxFailures > 0 then c.maxFailures else 5
    ensures r.timeout == if c.timeout > 0 then c.timeout else 30 * SECOND
  {
    Config(if c.maxFailures <= 0 then 5 else c.maxFailures,
           if c.timeout <= 0 then 30 * SECOND else c.timeout)
  }

  /** The fields that the mutex protects. */
  datatype Breaker = Breaker(state: State, failures: nat, successes: nat, lastFail: int, lastAttempt: int)

  datatype Admission = Admitted | CircuitOpen | TooManyRequests

  const FRESH := Breaker(Closed, 0, 0, 0, 0)

  // ----- the critical sections as functions of the protected fields

  function Admit(c: Config, b: Breaker, now: int): (Admission, Breaker) {
    match b.state
    case Closed => (Admitted, b)
    case Open =>
      if now - b.lastFail > c.timeout
      then (Admitted, b.(state := HalfOpen, successes := 0, lastAttempt := now))
      else (CircuitOpen, b)
    case HalfOpen =>
      if now - b.lastAttempt < SECOND
      then (TooManyRequests, b)
      else (Admitted, b.(lastAttempt := now))
  }

  function Report(c: Config, b: Breaker, ok: bool, now: int): Breaker {
    if !ok then
      var failed := b.(failures := b.failures + 1, lastFail := now);
      match b.state
      case Closed => if failed.failures >= c.maxFailures then failed.(state := Open) else failed
      case Open => failed
      case HalfOpen => failed.(state := Open)
    else
      match b.state
      case Closed => b.(failures := 0)
      case Open => b
      case HalfOpen =>
        if b.successes + 1 >= SUCCESSES_TO_CLOSE
        then b.(state := Closed, failures := 0, successes := b.successes + 1)
        else b.(successes := b.successes + 1)
  }

  // ----- histories

  datatype Event =
    | Arrival(at: int)
    | Result(ok: bool, at: int)
    | Reset(at: int)

  function Step(c: Config, b: Breaker, e: Event): Breaker {
    match e
    case Arrival(at) => Admit(c, b, at).1
    case Result(ok, at) => Report(c, b, ok, at)
    case Reset(_) => b.(state := Closed, failures := 0, successes := 0)
  }

  function Run(c: Config, h: seq<Event>): Breaker {
    if h == [] then FRESH else Step(c, Run(c, Front(h)), Last(h))
  }

  /** The breaker after the first `k` events of a history. */
  function At(c: Config, h: seq<Event>, k: nat): Breaker
    requires k <= |h|
  {
    Run(c, h[..k])
  }

  ghost predicate Monotone(h: seq<Event>) {
    forall i, j | 0 <= i < j < |h| :: h[i].at <= h[j].at
  }

  lemma RunAt(c: Config, h: seq<Event>, k: nat)
    requires k < |h|
    ensures At(c, h, k + 1) == Step(c, At(c, h, k), h[k])
    ensures At(c, h, |h|) == Run(c, h)
  {
    assert Front(h[..k + 1]) == h[..k];
    assert h[..|h|] == h;
  }

  lemma AtFront(c: Config, h: seq<Event>)
    requires h != []
    ensures forall k | 0 <= k < |h| :: At(c, h, k) == At(c, Front(h), k)
  {
    forall k | 0 <= k < |h| ensures At(c, h, k) == At(c, Front(h), k) {
      assert h[..k] == Front(h)[..k];
    }
  }

  // ----- the state read off the history

  /** Failed results since the latest successful result, reset or start. */
  function TrailingFailures(h: seq<Event>): nat {
    if h == [] then 0 else
      match Last(h)
      case Arrival(_) => TrailingFailures(Front(h))
      case Result(ok, _) => if ok then 0 else TrailingFailures(Front(h)) + 1
      case Reset(_) => 0
  }

  /** Time of the latest failed result. */
  function LatestFailure(h: seq<Event>): Option<int> {
    if h == [] then None
    else if Last(h).Result? && !Last(h).ok then Some(Last(h).at)
    else LatestFailure(Front(h))
  }

  function CountOk(h: seq<Event>): nat {
    if h == [] then 0
    else CountOk(Front(h)) + Hit(Last(h).Result? && Last(h).ok)
  }

  predicate NoFailureOrReset(h: seq<Event>) {
    forall e | e in h :: !e.Reset? && (e.Result? ==> e.ok)
  }

  /** Event `j` is the one that moved the breaker from open to half-open. */
  predicate EntersHalfOpen(c: Config, h: seq<Event>, j: nat)
    requires j < |h|
  {
    At(c, h, j).state == Open && At(c, h, j + 1).state == HalfOpen
  }

  /** What every history keeps: the failure count decides whether the breaker is closed. */
  lemma {:induction false} StateFollowsFailures(c: Config, h: seq<Event>)
    requires c.Valid()
    ensures Run(c, h).state != Closed <==> Run(c, h).failures >= c.maxFailures
    ensures Run(c, h).state == HalfOpen ==> Run(c, h).successes < SUCCESSES_TO_CLOSE
  {
    if h != [] {
      StateFollowsFailures(c, Front(h));
    }
  }

  /** While closed, the counter is exactly the run of failures at the end of the history. */
  lemma {:induction false} ClosedCountsTrailingFailures(c: Config, h: seq<Event>)
    requires c.Valid()
    ensures Run(c, h).state == Closed ==> Run(c, h).failures == TrailingFailures(h)
  {
    if h != [] {
      ClosedCountsTrailingFailures(c, Front(h));
    }
  }

  /** A closed breaker opens on exactly the event that completes `maxFailures` failures in a row. */
  lemma OpensExactly(c: Config, h: seq<Event>, e: Event)
    requires c.Valid() && Run(c, h).state == Closed
    ensures Run(c, h + [e]).state != HalfOpen
    ensures Run(c, h + [e]).state == Open <==>
            e.Result? && !e.ok && TrailingFailures(h + [e]) == c.maxFailures
  {
    Extend(h, e);
    StateFollowsFailures(c, h);
    ClosedCountsTrailingFailures(c, h);
  }

  lemma HalfOpenStep(c: Config, b: Breaker, e: Event)
    requires c.Valid() && Step(c, b, e).state == HalfOpen
    ensures b.state == HalfOpen ==>
              NoFailureOrReset([e]) && Step(c, b, e).successes == b.successes + Hit(e.Result? && e.ok)
    ensures b.state != HalfOpen ==> b.state == Open && Step(c, b, e).successes == 0
  {
  }

  lemma HalfOpenGoesOn(h: seq<Event>, j: nat)
    requires j < |h| - 1 && NoFailureOrReset(Front(h)[j + 1..]) && NoFailureOrReset([Last(h)])
    ensures NoFailureOrReset(h[j + 1..])
    ensures CountOk(h[j + 1..]) == CountOk(Front(h)[j + 1..]) + Hit(Last(h).Result? && Last(h).ok)
  {
    assert h[j + 1..] == Front(h)[j + 1..] + [Last(h)];
    assert Last(h) in [Last(h)];
    Extend(Front(h)[j + 1..], Last(h));
  }

  /** Where a half-open breaker comes from. */
  lemma {:induction false} HalfOpenHistory(c: Config, h: seq<Event>) returns (j: nat)
    requires c.Valid() && Run(c, h).state == HalfOpen
    ensures j < |h| && EntersHalfOpen(c, h, j)
    ensures forall k | j < k <= |h| :: At(c, h, k).state == HalfOpen
    ensures NoFailureOrReset(h[j + 1..])
    ensures CountOk(h[j + 1..]) == Run(c, h).successes
  {
    var p, e, n := Front(h), Last(h), |h| - 1;
    RunAt(c, h, n);
    AtFront(c, h);
    HalfOpenStep(c, Run(c, p), e);
    if Run(c, p).state == HalfOpen {
      j := HalfOpenHistory(c, p);
      HalfOpenGoesOn(h, j);
    } else {
      j := n;
      assert h[j + 1..] == [] && At(c, h, n) == Run(c, p);
    }
  }

  /** A breaker that is not closed becomes closed on exactly two kinds of event: a manual reset,
      or the third successful result since the latest half-open entry, none failing between. */
  lemma ClosesExactly(c: Config, h: seq<Event>, e: Event)
    requires c.Valid() && Run(c, h).state != Closed
    ensures Run(c, h + [e]).state == Closed <==>
            || e.Reset?
            || (e.Result? && e.ok &&
                exists j | 0 <= j < |h| && EntersHalfOpen(c, h, j) ::
                  && (forall k | j < k <= |h| :: At(c, h, k).state == HalfOpen)
                  && NoFailureOrReset(h[j + 1..])
                  && CountOk(h[j + 1..] + [e]) == 3)
  {
    Extend(h, e);
    StateFollowsFailures(c, h);
    if Run(c, h).state == HalfOpen {
      var j := HalfOpenHistory(c, h);
      Extend(h[j + 1..], e);
      forall i | 0 <= i < |h| && EntersHalfOpen(c, h, i) &&
                 (forall k | i < k <= |h| :: At(c, h, k).state == HalfOpen)
        ensures i == j
      {
        assert At(c, h, i).state == Open && At(c, h, j).state == Open;
      }
    } else {
      assert At(c, h, |h|) == Run(c, h) by { assert h[..|h|] == h; }
    }
  }

  // ----- how often a tripped breaker lets a call through

  function ProbeGap(c: Config): int {
    Min(SECOND, c.timeout)
  }

  /** 1 when the event is a call that the breaker lets through. */
  function Lets(c: Config, b: Breaker, e: Event): nat {
    Hit(e.Arrival? && Admit(c, b, e.at).0 == Admitted)
  }

  /** Calls admitted by events `from..` of the history. */
  function AdmittedSince(c: Config, h: seq<Event>, from: nat): nat
    requires from <= |h|
  {
    if |h| == from then 0
    else AdmittedSince(c, Front(h), from) + Lets(c, Run(c, Front(h)), Last(h))
  }

  /** Event `from - 1` opened the breaker, and it has not been closed since. */
  ghost predicate TrippedSince(c: Config, h: seq<Event>, from: nat) {
    && 0 < from <= |h|
    && At(c, h, from - 1).state == Closed
    && forall k | from <= k <= |h| :: At(c, h, k).state != Closed
  }

  /** One probe gap for every admitted call. */
  function Price(c: Config, h: seq<Event>, from: nat): int
    requires from <= |h|
  {
    if |h| == from then 0
    else Price(c, Front(h), from) + if Lets(c, Run(c, Front(h)), Last(h)) == 1 then ProbeGap(c) else 0
  }

  lemma {:induction false} PriceIsProduct(c: Config, h: seq<Event>, from: nat)
    requires from <= |h|
    ensures Price(c, h, from) == AdmittedSince(c, h, from) * ProbeGap(c)
  {
    if |h| > from {
      PriceIsProduct(c, Front(h), from);
      OneMore(AdmittedSince(c, Front(h), from), ProbeGap(c));
    }
  }

  /** The time since `start` has paid the price. */
  predicate Paid(b: Breaker, price: int, start: int, now: int) {
    && (b.state == Open ==> price <= b.lastFail - start && b.lastFail <= now)
    && (b.state == HalfOpen ==> price <= b.lastAttempt - start && b.lastAttempt <= now)
  }

  lemma PaidStep(c: Config, b: Breaker, e: Event, price: int, start: int, now: int)
    requires c.Valid() && b.state != Closed && Step(c, b, e).state != Closed
    requires now <= e.at && Paid(b, price, start, now)
    ensures Paid(Step(c, b, e), price + if Lets(c, b, e) == 1 then ProbeGap(c) else 0, start, e.at)
  {
  }

  lemma {:induction false} ProbesPaidInTime(c: Config, h: seq<Event>, from: nat)
    requires c.Valid() && Monotone(h) && TrippedSince(c, h, from)
    ensures Paid(Run(c, h), Price(c, h, from), h[from - 1].at, Last(h).at)
  {
    var p, n := Front(h), |h| - 1;
    RunAt(c, h, n);
    AtFront(c, h);
    assert At(c, h, |h|).state != Closed;
    if n == from - 1 {
      assert At(c, h, n) == Run(c, p);
    } else {
      ProbesPaidInTime(c, p, from);
      assert h[n - 1].at <= h[n].at;
      assert At(c, h, n) == Run(c, p);
      PaidStep(c, Run(c, p), Last(h), Price(c, p, from), h[from - 1].at, Last(p).at);
    }
  }

  /** From the moment the breaker opens until it closes or is reset, whatever late results come
      in, admitted calls times the probe gap fit in the elapsed time. */
  lemma ProbeBound(c: Config, h: seq<Event>, from: nat)
    requires c.Valid() && Monotone(h) && TrippedSince(c, h, from)
    ensures AdmittedSince(c, h, from) * ProbeGap(c) <= Last(h).at - h[from - 1].at
  {
    ProbesPaidInTime(c, h, from);
    assert At(c, h, |h|) == Run(c, h) by { assert h[..|h|] == h; }
    PriceIsProduct(c, h, from);
  }

  lemma {:induction false} RemembersLatestFailure(c: Config, h: seq<Event>)
    requires c.Valid()
    ensures LatestFailure(h) == None ==> Run(c, h).state == Closed && Run(c, h).failures == 0
    ensures LatestFailure(h).Some? ==> Run(c, h).lastFail == LatestFailure(h).value
  {
    if h != [] {
      RemembersLatestFailure(c, Front(h));
    }
  }

  /** The move to half-open happens on exactly the arrivals more than the timeout after the
      latest failed result, and such an arrival is admitted. */
  lemma HalfOpenAfterTimeout(c: Config, h: seq<Event>, e: Event)
    requires c.Valid() && Run(c, h).state == Open
    ensures LatestFailure(h).Some?
    ensures Run(c, h + [e]).state == HalfOpen <==> e.Arrival? && e.at - LatestFailure(h).value > c.timeout
    ensures e.Arrival? ==>
              (Admit(c, Run(c, h), e.at).0 == Admitted <==> Run(c, h + [e]).state == HalfOpen)
  {
    Extend(h, e);
    RemembersLatestFailure(c, h);
  }

  // ----- which calls are let through

  /** What the history says of an arrival at `at`: a closed breaker lets every call through, an open one those
      more than the timeout after the latest failed result, and a half-open one those at least a second after
      the latest call that was let through. */
  ghost predicate LetsThrough(c: Config, h: seq<Event>, at: int)
    decreases |h|, 1
  {
    match Run(c, h).state
    case Closed => true
    case Open => LatestFailure(h).Some? && at - LatestFailure(h).value > c.timeout
    case HalfOpen => LatestLetThrough(c, h).Some? && at - LatestLetThrough(c, h).value >= SECOND
  }

  /** When the latest call was let through. */
  ghost function LatestLetThrough(c: Config, h: seq<Event>): Option<int>
    decreases |h|, 0
  {
    if h == [] then None
    else if Last(h).Arrival? && LetsThrough(c, Front(h), Last(h).at) then Some(Last(h).at)
    else LatestLetThrough(c, Front(h))
  }

  lemma {:induction false} RemembersLatestAdmission(c: Config, h: seq<Event>)
    requires c.Valid()
    ensures Run(c, h).state == HalfOpen ==> LatestLetThrough(c, h) == Some(Run(c, h).lastAttempt)
  {
    if h != [] {
      RemembersLatestAdmission(c, Front(h));
      RemembersLatestFailure(c, Front(h));
      StateFollowsFailures(c, Front(h));
    }
  }

  /** The breaker admits exactly these calls, and tells a caller that it is open exactly when it is. */
  lemma AdmitsExactly(c: Config, h: seq<Event>, at: int)
    requires c.Valid()
    ensures Admit(c, Run(c, h), at).0 == Admitted <==> LetsThrough(c, h, at)
    ensures Admit(c, Run(c, h), at).0 == CircuitOpen <==> !LetsThrough(c, h, at) && Run(c, h).state == Open
    ensures Admit(c, Run(c, h), at).0 == TooManyRequests <==> !LetsThrough(c, h, at) && Run(c, h).state == HalfOpen
  {
    RemembersLatestAdmission(c, h);
    RemembersLatestFailure(c, h);
    StateFollowsFailures(c, h);
  }

  lemma GoOn(c: Config, h: seq<Event>, e: Event, from: nat) returns (n: seq<Event>)
    requires Monotone(h) && (h != [] ==> Last(h).at <= e.at) && from <= |h|
    ensures Monotone(n) && |n| == |h| + 1 && h <= n && Last(n) == e && Run(c, n) == Step(c, Run(c, h), e)
    ensures AdmittedSince(c, n, from) == AdmittedSince(c, h, from) + Lets(c, Run(c, h), e)
  {
    n := h + [e];
    Extend(h, e);
    forall i, j | 0 <= i < j < |n| ensures n[i].at <= n[j].at {
      if i < |h| - 1 {
        assert h[i].at <= h[|h| - 1].at;
      }
    }
  }

  /** Late results count: results of calls admitted before the breaker opened can close it after a single
      probe, so "three successes" are not three probes. */
  lemma LateResultsCanClose() returns (c: Config, tripped: seq<Event>, h: seq<Event>)
    ensures c.Valid() && Monotone(h) && tripped <= h
    ensures Run(c, tripped).state == Open && Run(c, h).state == Closed && NoFailureOrReset(h[|tripped|..])
    ensures AdmittedSince(c, h, |tripped|) == 1
  {
    c := Config(1, 1);
    h := GoOn(c, [], Arrival(0), 0);
    h := GoOn(c, h, Arrival(0), 0);
    h := GoOn(c, h, Arrival(0), 0);
    h := GoOn(c, h, Result(false, 0), 0);
    tripped := h;
    var h1 := GoOn(c, h, Arrival(2), |h|);
    var h2 := GoOn(c, h1, Result(true, 2), |h|);
    var h3 := GoOn(c, h2, Result(true, 2), |h|);
    var h4 := GoOn(c, h3, Result(true, 2), |h|);
    assert h4[|h|..] == [h1[|h|], h2[|h| + 1], h3[|h| + 2], h4[|h| + 3]];
    h := h4;
  }

  // ----- the object

  class CircuitBreaker {
    const config: Config
    var state: State
    var failures: nat
    var successes: nat
    var lastFailTime: int
    var lastAttempt: int
    /** The critical sections run so far. */
    ghost var history: seq<Event>

    ghost function View(): Breaker
      reads this
    {
      Breaker(state, failures, successes, lastFailTime, lastAttempt)
    }

    /** The fields are what the history makes them, so every law of the histories holds for the object. */
    ghost predicate Valid()
      reads this
    {
      config.Valid() && View() == Run(config, history)
    }

    constructor (c: Config)
      ensures Valid() && config == Normalize(c) && history == [] && state == Closed
    {
      config := Normalize(c);
      state, failures, successes, lastFailTime, lastAttempt := Closed, 0, 0, 0, 0;
      history := [];
    }

    method BeforeRequest(now: int) returns (a: Admission)
      requires Valid()
      modifies this
      ensures Valid() && history == old(history) + [Arrival(now)]
      ensures (a, View()) == Admit(config, old(View()), now)
      ensures a == Admitted <==> LetsThrough(config, old(history), now)
      ensures a != Admitted ==> a == if old(state) == Open then CircuitOpen else TooManyRequests
      ensures old(state) == Closed ==> a == Admitted
    {
      AdmitsExactly(config, history, now);
      Extend(history, Arrival(now));
      history := history + [Arrival(now)];
      match state {
        case Closed =>
          a := Admitted;
        case Open =>
          if now - lastFailTime > config.timeout {
            state := HalfOpen;
            successes := 0;
            lastAttempt := now;
            a := Admitted;
          } else {
            a := CircuitOpen;
          }
        case HalfOpen =>
          if now - lastAttempt < SECOND {
            return TooManyRequests;
          }
          lastAttempt := now;
          a := Admitted;
      }
    }

    method OnSuccess()
      modifies this
      ensures history == old(history) && forall now :: View() == Report(config, old(View()), true, now)
    {
      match state {
        case Closed =>
          failures := 0;
        case Open =>
        case HalfOpen =>
          successes := successes + 1;
          if successes >= SUCCESSES_TO_CLOSE {
            state := Closed;
            failures := 0;
          }
      }
    }

    method OnFailure(now: int)
      modifies this
      ensures history == old(history) && View() == Report(config, old(View()), false, now)
    {
      failures := failures + 1;
      lastFailTime := now;
      match state {
        case Closed =>
          if failures >= config.maxFailures {
            state := Open;
          }
        case Open =>
        case HalfOpen =>
          state := Open;
      }
    }

    method AfterRequest(ok: bool, now: int)
      requires Valid()
      modifies this
      ensures Valid() && history == old(history) + [Result(ok, now)]
      ensures View() == Report(config, old(View()), ok, now)
    {
      Extend(history, Result(ok, now));
      if !ok {
        OnFailure(now);
      } else {
        OnSuccess();
      }
      history := history + [Result(ok, now)];
    }

    method ResetBreaker(ghost now: int)
      requires Valid()
      modifies this
      ensures Valid() && history == old(history) + [Reset(now)]
      ensures View() == Step(config, old(View()), Reset(now))
    {
      Extend(history, Reset(now));
      state := Closed;
      failures := 0;
      successes := 0;
      history := history + [Reset(now)];
    }
  }
}
