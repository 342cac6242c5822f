/**
 The bulkhead of resilience/bulkhead.go. The slot in the semaphore channel and the counters under the
 mutex are taken and given back in separate steps, and the calls of a history interleave in any way.
 */
module Bulkheads {
  import opened Common

  /** Where a call stands, by the step it has just taken. */
  datatype Stage =
    | Entered    // ExecuteWithContext called
    | Waiting    // counted in totalCalls
    | Taken      // has a slot, not yet counted in active
    | Running    // counted in active, its function runs
    | Returned   // its function has returned, the slot is still taken
    | Given      // slot given back, still counted in active
    | Finished
    | Refused    // no slot, not yet counted in rejected
    | Rejected
    | Cancelled  // its context ended first

  datatype Config = Config(maxConcurrent: int, failFast: bool)

  /** NewBulkhead's default for a limit that is not positive. */
  function Normalize(c: Config): (r: Config)
    ensures r.failFast == c.failFast
    ensures r.maxConcurrent == if c.maxConcurrent > 0 then c.maxConcurrent else 10
  {
    if c.maxConcurrent <= 0 then c.(maxConcurrent := 10) else c
  }

  datatype Bulk = Bulk(calls: seq<Stage>, slots: int, active: int, rejected: int, totalCalls: int)

  const IDLE := Bulk([], 0, 0, 0, 0)

  datatype Event =
    | Enter
    | Move(call: nat, to: Stage)

  predicate Follows(from: Stage, to: Stage) {
    match to
    case Entered => false
    case Waiting => from == Entered
    case Taken => from == Waiting
    case Running => from == Taken
    case Returned => from == Running
    case Given => from == Returned
    case Finished => from == Given
    case Refused => from == Waiting
    case Rejected => from == Refused
    case Cancelled => from == Waiting
  }

  /** A slot can be taken while one is free. Failing fast refuses only when none is; a waiting call may
      be refused whenever its timer has fired and may be cancelled. */
  predicate Enabled(c: Config, s: Bulk, e: Event) {
    match e
    case Enter => true
    case Move(call, to) =>
      && call < |s.calls| && Follows(s.calls[call], to)
      && (to == Taken ==> s.slots < c.maxConcurrent)
      && (to == Refused && c.failFast ==> s.slots >= c.maxConcurrent)
      && (to == Cancelled ==> !c.failFast)
  }

  function Step(s: Bulk, e: Event): Bulk
    requires e.Move? ==> e.call < |s.calls|
  {
    match e
    case Enter => s.(calls := s.calls + [Entered])
    case Move(call, to) =>
      var n := s.(calls := s.calls[call := to]);
      match to
      case Waiting => n.(totalCalls := n.totalCalls + 1)
      case Taken => n.(slots := n.slots + 1)
      case Running => n.(active := n.active + 1)
      case Given => n.(slots := n.slots - 1)
      case Finished => n.(active := n.active - 1)
      case Rejected => n.(rejected := n.rejected + 1)
      case _ => n
  }

  ghost predicate Legal(c: Config, h: seq<Event>)
    decreases |h|, 0
  {
    h == [] || (Legal(c, Front(h)) && Enabled(c, Run(c, Front(h)), Last(h)))
  }

  ghost function Run(c: Config, h: seq<Event>): Bulk
    requires Legal(c, h)
    decreases |h|, 1
  {
    if h == [] then IDLE else Step(Run(c, Front(h)), Last(h))
  }

  function CountIn(calls: seq<Stage>, stage: Stage): nat {
    if calls == [] then 0 else CountIn(Front(calls), stage) + Hit(Last(calls) == stage)
  }

  function Count(s: Bulk, stage: Stage): nat {
    CountIn(s.calls, stage)
  }

  /** What the slots and the counters count, in every interleaving. */
  predicate Counted(c: Config, s: Bulk) {
    && s.slots == Count(s, Taken) + Count(s, Running) + Count(s, Returned)
    && s.slots <= c.maxConcurrent
    && s.active == Count(s, Running) + Count(s, Returned) + Count(s, Given)
    && s.rejected == Count(s, Rejected)
    && s.totalCalls == |s.calls| - Count(s, Entered)
  }

  lemma {:induction false} MoveCounts(calls: seq<Stage>, call: nat, to: Stage, stage: Stage)
    requires call < |calls|
    ensures CountIn(calls[call := to], stage) ==
            CountIn(calls, stage) + Hit(stage == to) - Hit(stage == calls[call])
  {
    var moved := calls[call := to];
    if call == |calls| - 1 {
      assert Front(moved) == Front(calls);
    } else {
      MoveCounts(Front(calls), call, to, stage);
      assert Front(moved) == Front(calls)[call := to];
    }
  }

  lemma CountedStep(c: Config, s: Bulk, e: Event)
    requires Enabled(c, s, e) && Counted(c, s)
    ensures Counted(c, Step(s, e))
  {
    if e.Move? {
      MoveCounts(s.calls, e.call, e.to, Entered);
      MoveCounts(s.calls, e.call, e.to, Taken);
      MoveCounts(s.calls, e.call, e.to, Running);
      MoveCounts(s.calls, e.call, e.to, Returned);
      MoveCounts(s.calls, e.call, e.to, Given);
      MoveCounts(s.calls, e.call, e.to, Rejected);
    } else {
      Extend(s.calls, Entered);
    }
  }

  lemma {:induction false} AlwaysCounted(c: Config, h: seq<Event>)
    requires c.maxConcurrent > 0 && Legal(c, h)
    ensures Counted(c, Run(c, h))
  {
    if h != [] {
      AlwaysCounted(c, Front(h));
      CountedStep(c, Run(c, Front(h)), Last(h));
    }
  }

  predicate Over(stage: Stage) {
    stage == Finished || stage == Rejected || stage == Cancelled
  }

  /** How many calls have entered and are not over. */
  function InFlight(calls: seq<Stage>): nat {
    if calls == [] then 0 else InFlight(Front(calls)) + Hit(!Over(Last(calls)))
  }

  lemma {:induction false} CountedAreInFlight(calls: seq<Stage>)
    ensures CountIn(calls, Running) + CountIn(calls, Returned) + CountIn(calls, Given) <= InFlight(calls)
  {
    if calls != [] {
      CountedAreInFlight(Front(calls));
    }
  }

  /** At most maxConcurrent functions run at once. The active counter is the number of taken slots, less
      those not yet counted, plus those given back and not yet uncounted; it never exceeds the calls in
      flight, so it keeps the limit as long as no more calls than that are inside. */
  lemma RunningBounded(c: Config, h: seq<Event>)
    requires c.maxConcurrent > 0 && Legal(c, h)
    ensures Count(Run(c, h), Running) <= c.maxConcurrent
    ensures Run(c, h).active == Run(c, h).slots - Count(Run(c, h), Taken) + Count(Run(c, h), Given)
    ensures Run(c, h).active <= InFlight(Run(c, h).calls)
  {
    AlwaysCounted(c, h);
    CountedAreInFlight(Run(c, h).calls);
  }

  lemma {:induction false} OverCounts(calls: seq<Stage>)
    requires forall i | 0 <= i < |calls| :: Over(calls[i])
    ensures |calls| == CountIn(calls, Finished) + CountIn(calls, Rejected) + CountIn(calls, Cancelled)
    ensures forall s | !Over(s) :: CountIn(calls, s) == 0
  {
    if calls != [] {
      OverCounts(Front(calls));
    }
  }

  /** When every call is over nothing is counted as active, no slot is taken, and every call is
      accounted for as finished, rejected or cancelled. */
  lemma Quiescence(c: Config, h: seq<Event>)
    requires c.maxConcurrent > 0 && Legal(c, h)
    requires forall i | 0 <= i < |Run(c, h).calls| :: Over(Run(c, h).calls[i])
    ensures Run(c, h).active == 0 && Run(c, h).slots == 0
    ensures Run(c, h).totalCalls == Count(Run(c, h), Finished) + Run(c, h).rejected + Count(Run(c, h), Cancelled)
  {
    AlwaysCounted(c, h);
    var s := Run(c, h);
    OverCounts(s.calls);
    assert Count(s, Entered) == Count(s, Taken) == 0;
    assert Count(s, Running) == Count(s, Returned) == Count(s, Given) == 0;
  }

  lemma Then(c: Config, h: seq<Event>, e: Event)
    requires Legal(c, h) && Enabled(c, Run(c, h), e)
    ensures Legal(c, h + [e]) && Run(c, h + [e]) == Step(Run(c, h), e)
  {
    Extend(h, e);
  }

  lemma GoOn(c: Config, h: seq<Event>, e: Event) returns (n: seq<Event>)
    requires Legal(c, h) && Enabled(c, Run(c, h), e)
    ensures Legal(c, n) && Run(c, n) == Step(Run(c, h), e)
  {
    n := h + [e];
    Then(c, h, e);
  }

  /** A step of the youngest call. */
  lemma MoveLast(c: Config, h: seq<Event>, rest: seq<Stage>, to: Stage) returns (n: seq<Event>)
    requires Legal(c, h) && |Run(c, h).calls| == |rest| + 1 && Run(c, h).calls[..|rest|] == rest
    requires Enabled(c, Run(c, h), Move(|rest|, to))
    ensures Legal(c, n) && Run(c, n) == Step(Run(c, h), Move(|rest|, to)).(calls := rest + [to])
  {
    n := GoOn(c, h, Move(|rest|, to));
    assert Run(c, h).calls[|rest| := to] == rest + [to];
  }

  /** How many calls hold a slot. */
  function Holders(s: Bulk): nat {
    Count(s, Taken) + Count(s, Running) + Count(s, Returned)
  }

  /** A waiting call gets a slot exactly while fewer calls than the limit hold one. Failing fast it is refused
      exactly otherwise; with a timer it may be refused or cancelled at any time. */
  lemma WaitingDecides(c: Config, h: seq<Event>, call: nat)
    requires c.maxConcurrent > 0 && Legal(c, h) && call < |Run(c, h).calls| && Run(c, h).calls[call] == Waiting
    ensures Enabled(c, Run(c, h), Move(call, Taken)) <==> Holders(Run(c, h)) < c.maxConcurrent
    ensures c.failFast ==> (Enabled(c, Run(c, h), Move(call, Refused)) <==> Holders(Run(c, h)) == c.maxConcurrent)
                           && !Enabled(c, Run(c, h), Move(call, Cancelled))
    ensures !c.failFast ==> Enabled(c, Run(c, h), Move(call, Refused)) && Enabled(c, Run(c, h), Move(call, Cancelled))
  {
    AlwaysCounted(c, h);
  }

  /** The steps of Acquire, run without interruption, are legal and leave the counters where the object's
      method leaves them. */
  lemma AcquireIsLegal(c: Config, h: seq<Event>) returns (n: seq<Event>)
    requires Legal(c, h) && Run(c, h).slots < c.maxConcurrent
    ensures Legal(c, n)
    ensures var s := Run(c, h);
            Run(c, n) == Bulk(s.calls + [Running], s.slots + 1, s.active + 1, s.rejected, s.totalCalls + 1)
  {
    var rest := Run(c, h).calls;
    n := GoOn(c, h, Enter);
    n := MoveLast(c, n, rest, Waiting);
    n := MoveLast(c, n, rest, Taken);
    n := MoveLast(c, n, rest, Running);
  }

  function Repeat(stage: Stage, n: nat): seq<Stage> {
    if n == 0 then [] else Repeat(stage, n - 1) + [stage]
  }

  lemma {:induction false} RepeatInFlight(calls: seq<Stage>, stage: Stage, n: nat)
    requires !Over(stage)
    ensures InFlight(calls + Repeat(stage, n)) == InFlight(calls) + n
  {
    var all := calls + Repeat(stage, n);
    if n == 0 {
      assert all == calls;
    } else {
      RepeatInFlight(calls, stage, n - 1);
      assert Front(all) == calls + Repeat(stage, n - 1);
    }
  }

  /** k calls, one after the other, that have given their slot back and are still counted. */
  lemma {:induction false} StillCounted(c: Config, k: nat) returns (h: seq<Event>)
    requires c.maxConcurrent > 0
    ensures Legal(c, h) && Run(c, h) == Bulk(Repeat(Given, k), 0, k, 0, k)
  {
    if k == 0 {
      h := [];
    } else {
      var rest := Repeat(Given, k - 1);
      h := StillCounted(c, k - 1);
      h := AcquireIsLegal(c, h);
      h := MoveLast(c, h, rest, Returned);
      h := MoveLast(c, h, rest, Given);
    }
  }

  /** n more calls that take a free slot each and run. */
  lemma {:induction false} MoreRunning(c: Config, p: seq<Event>, n: nat) returns (h: seq<Event>)
    requires Legal(c, p) && Run(c, p).slots + n <= c.maxConcurrent
    ensures Legal(c, h)
    ensures var s := Run(c, p);
            Run(c, h) == Bulk(s.calls + Repeat(Running, n), s.slots + n, s.active + n, s.rejected, s.totalCalls + n)
  {
    var calls := Run(c, p).calls;
    if n == 0 {
      h := p;
      assert calls + Repeat(Running, n) == calls;
    } else {
      h := MoreRunning(c, p, n - 1);
      h := AcquireIsLegal(c, h);
      assert calls + Repeat(Running, n - 1) + [Running] == calls + Repeat(Running, n);
    }
  }

  /** That bound is reached: for every limit and every excess k there is a run in which the counter, and
      the number of calls in flight, is the limit plus k. So AvailableSlots can be any negative number. */
  lemma ActiveCanExceedLimit(c: Config, k: nat) returns (h: seq<Event>)
    requires c.maxConcurrent > 0
    ensures Legal(c, h) && Run(c, h).active == c.maxConcurrent + k == InFlight(Run(c, h).calls)
  {
    h := StillCounted(c, k);
    h := MoreRunning(c, h, c.maxConcurrent);
    RepeatInFlight([], Given, k);
    assert [] + Repeat(Given, k) == Repeat(Given, k);
    RepeatInFlight(Repeat(Given, k), Running, c.maxConcurrent);
  }

  // ----- the object

  datatype Entry = Admitted | Full | TimedOut | ContextDone

  /** What happens first to a call that waits: a slot can be taken, its timer fires or its context ends. */
  datatype Ready = Slot | Timer | Context

  class Bulkhead {
    const config: Config
    var slots: int
    var active: int
    var rejected: int
    var totalCalls: int

    ghost predicate Valid()
      reads this
    {
      0 <= slots <= config.maxConcurrent && config.maxConcurrent > 0
    }

    constructor (c: Config)
      ensures Valid() && config == Normalize(c)
      ensures slots == 0 && active == 0 && rejected == 0 && totalCalls == 0
    {
      config := Normalize(c);
      slots, active, rejected, totalCalls := 0, 0, 0, 0;
    }

    /** Acquire. Failing fast, it admits exactly when a slot is free. Waiting, it does so exactly when one is
        and that is what happens first. */
    method Acquire(ready: Ready) returns (r: Entry)
      requires Valid()
      modifies this
      ensures Valid() && totalCalls == old(totalCalls) + 1
      ensures r.Admitted? <==> old(slots) < config.maxConcurrent && (config.failFast || ready == Slot)
      ensures !r.Admitted? ==>
                r == if config.failFast then Full else if ready == Context then ContextDone else TimedOut
      ensures slots == old(slots) + Hit(r.Admitted?) && active == old(active) + Hit(r.Admitted?)
      ensures rejected == old(rejected) + Hit(r.Full? || r.TimedOut?)
    {
      totalCalls := totalCalls + 1;
      if config.failFast {
        if slots < config.maxConcurrent {
          slots := slots + 1;
          active := active + 1;
          return Admitted;
        }
        rejected := rejected + 1;
        return Full;
      }
      if ready == Context {
        return ContextDone;
      }
      if ready == Timer || slots == config.maxConcurrent {
        rejected := rejected + 1;
        return TimedOut;
      }
      slots := slots + 1;
      active := active + 1;
      r := Admitted;
    }

    method Release()
      requires Valid() && slots > 0
      modifies this
      ensures Valid() && slots == old(slots) - 1 && active == old(active) - 1
      ensures rejected == old(rejected) && totalCalls == old(totalCalls)
    {
      slots := slots - 1;
      active := active - 1;
    }
  }
}
