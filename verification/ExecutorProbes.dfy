/**
 The probes of a half-open breaker inside the executor: how many calls have to be let through before the
 breaker closes, when calls that it had let through before it opened may still report.
 */
module ExecutorProbes {
  import opened Common
  import opened Executors
  import CB = CircuitBreakers
  import BH = Bulkheads

  /** Event `j` moved the breaker from open to half-open, and it has stayed half-open since. */
  ghost predicate ProbingSince(c: Config, h: seq<Event>, j: nat)
    requires Legal(c, h)
  {
    && j < |h| && Run(c, h).breaker.state == CB.HalfOpen
    && if j == |h| - 1 then Run(c, Front(h)).breaker.state == CB.Open else ProbingSince(c, Front(h), j)
  }

  /** The state before event `j`. */
  ghost function StateAt(c: Config, h: seq<Event>, j: nat): Exec
    requires Legal(c, h) && j <= |h|
  {
    if j == |h| then Run(c, h) else StateAt(c, Front(h), j)
  }

  /** The calls that have asked the breaker from event `j` on. */
  function AskedSince(h: seq<Event>, j: nat): set<nat> {
    if |h| <= j then {} else AskedSince(Front(h), j) + if Last(h).Ask? then {Last(h).call} else {}
  }

  /** Those of them that it let through: its probes. */
  ghost function AdmittedSince(c: Config, h: seq<Event>, j: nat): set<nat>
    requires Legal(c, h)
  {
    if |h| <= j then {}
    else
      var e := Last(h);
      AdmittedSince(c, Front(h), j)
      + if e.Ask? && CB.Admit(c.breaker, Run(c, Front(h)).breaker, e.at).0 == CB.Admitted then {e.call} else {}
  }

  /** The calls that have reported a result to it from event `j` on. */
  function RecordedSince(h: seq<Event>, j: nat): set<nat> {
    if |h| <= j then {} else RecordedSince(Front(h), j) + if Last(h).Record? then {Last(h).call} else {}
  }

  lemma {:induction false} LatestEntry(c: Config, h: seq<Event>) returns (j: nat)
    requires c.Valid() && Legal(c, h) && Run(c, h).breaker.state == CB.HalfOpen
    ensures ProbingSince(c, h, j)
  {
    if Run(c, Front(h)).breaker.state == CB.HalfOpen {
      j := LatestEntry(c, Front(h));
    } else {
      j := |h| - 1;
    }
  }

  /** The breaker has counted one success for each of these calls, which have all reported. */
  predicate CountedBy(s: Exec, recorded: set<nat>) {
    s.breaker.successes == |recorded| && forall i | i in recorded :: i < |s.inner| && s.inner[i].Recorded?
  }

  lemma CountedByStep(c: Config, s: Exec, e: Event, recorded: set<nat>)
    requires c.Valid() && Enabled(c, s, e) && CountedBy(s, recorded)
    requires s.breaker.state == CB.HalfOpen && (e.Record? ==> e.ok) && !e.Reset?
    ensures CountedBy(Step(c, s, e), recorded + if e.Record? then {e.call} else {})
  {
  }

  lemma {:induction false} ProbesCounted(c: Config, h: seq<Event>, j: nat)
    requires c.Valid() && Legal(c, h) && ProbingSince(c, h, j)
    ensures CountedBy(Run(c, h), RecordedSince(h, j))
  {
    if j < |h| - 1 {
      ProbesCounted(c, Front(h), j);
      CountedByStep(c, Run(c, Front(h)), Last(h), RecordedSince(Front(h), j));
    } else {
      assert RecordedSince(Front(h), j) == {};
    }
  }

  /** Whoever has asked is a probe or was refused. */
  predicate Answered(s: Exec, asked: set<nat>, probes: set<nat>) {
    forall i | i in asked :: i < |s.inner| && s.inner[i] != Outside && (i in probes || s.inner[i].Refused?)
  }

  lemma {:induction false} ProbesOrRefused(c: Config, h: seq<Event>, j: nat)
    requires c.Valid() && Legal(c, h)
    ensures Answered(Run(c, h), AskedSince(h, j), AdmittedSince(c, h, j))
  {
    if |h| > j {
      ProbesOrRefused(c, Front(h), j);
    }
  }

  /** n probes have been admitted, at least a second apart, from `start` to at most `now`. */
  predicate Spaced(b: CB.Breaker, n: nat, start: int, now: int) {
    n >= 1 && (n - 1) * SECOND <= b.lastAttempt - start && b.lastAttempt <= now
  }

  lemma SpacedStep(c: Config, s: Exec, e: Event, probes: set<nat>, start: int, now: int)
    requires c.Valid() && Enabled(c, s, e) && Spaced(s.breaker, |probes|, start, now)
    requires s.breaker.state == CB.HalfOpen && (e.Ask? ==> e.at <= now)
    ensures var more := if e.Ask? && CB.Admit(c.breaker, s.breaker, e.at).0 == CB.Admitted then {e.call} else {};
            Spaced(Step(c, s, e).breaker, |probes + more|, start, now)
  {
    if e.Ask? {
      assert e.call in probes ==> probes + {e.call} == probes;
    } else {
      assert probes + {} == probes;
    }
  }

  lemma {:induction false} ProbesSpaced(c: Config, h: seq<Event>, j: nat, now: int)
    requires c.Valid() && Legal(c, h) && ProbingSince(c, h, j)
    requires forall k | 0 <= k < |h| && h[k].Ask? :: h[k].at <= now
    ensures h[j].Ask? && Spaced(Run(c, h).breaker, |AdmittedSince(c, h, j)|, h[j].at, now)
  {
    var p, e := Front(h), Last(h);
    assert e == h[|h| - 1];
    if j < |h| - 1 {
      assert forall k | 0 <= k < |p| :: p[k] == h[k];
      ProbesSpaced(c, p, j, now);
      SpacedStep(c, Run(c, p), e, AdmittedSince(c, p, j), h[j].at, now);
    } else {
      assert AdmittedSince(c, p, j) == {};
    }
  }

  /** A call that is let in, has not reported, and may still report a success. */
  predicate MaySucceed(i: Inner) {
    i.Trying? || (i.Decided? && i.ok)
  }

  /** The calls that may still report a success. */
  function Hopeful(s: Exec): set<nat> {
    set i: nat | i < |s.inner| && MaySucceed(s.inner[i])
  }

  /** Whoever may succeed or has reported, and has not asked since the entry, was hopeful then. */
  predicate HopefulBefore(was: Exec, s: Exec, asked: set<nat>, recorded: set<nat>) {
    && (forall i | i in recorded :: i < |s.inner|)
    && (forall i: nat | i < |s.inner| && i !in asked && (MaySucceed(s.inner[i]) || i in recorded) :: i in Hopeful(was))
  }

  lemma HopefulBeforeStep(c: Config, was: Exec, s: Exec, e: Event, asked: set<nat>, recorded: set<nat>)
    requires Enabled(c, s, e) && HopefulBefore(was, s, asked, recorded) && (e.Record? ==> e.ok)
    ensures HopefulBefore(was, Step(c, s, e), asked + (if e.Ask? then {e.call} else {}),
                          recorded + if e.Record? then {e.call} else {})
  {
  }

  lemma {:induction false} LateWereHopeful(c: Config, h: seq<Event>, j: nat)
    requires c.Valid() && Legal(c, h) && ProbingSince(c, h, j)
    ensures HopefulBefore(StateAt(c, h, j), Run(c, h), AskedSince(h, j), RecordedSince(h, j))
  {
    var p := Front(h);
    if j < |h| - 1 {
      LateWereHopeful(c, p, j);
    } else {
      assert StateAt(c, h, j) == Run(c, p) && AskedSince(p, j) == {} && RecordedSince(p, j) == {};
    }
    HopefulBeforeStep(c, StateAt(c, h, j), Run(c, p), Last(h), AskedSince(p, j), RecordedSince(p, j));
  }

  lemma SharedOut(recorded: set<nat>, asked: set<nat>, probes: set<nat>)
    requires recorded * asked <= probes
    ensures |recorded| <= |probes| + |recorded - asked|
  {
    assert recorded == recorded * asked + (recorded - asked);
    assert probes == recorded * asked + (probes - recorded * asked);
  }

  /** The results counted once `call` has reported a success as well: of probes, or late, of calls that were
      hopeful before. */
  lemma Shares(was: Exec, s: Exec, call: nat, recorded: set<nat>, asked: set<nat>, probes: set<nat>)
    requires CountedBy(s, recorded) && Answered(s, asked, probes) && HopefulBefore(was, s, asked, recorded)
    requires call < |s.inner| && s.inner[call].Decided? && s.inner[call].ok
    ensures |recorded + {call}| == s.breaker.successes + 1 <= |probes| + |recorded + {call} - asked|
    ensures recorded + {call} - asked <= Hopeful(was)
  {
    assert call !in recorded;
    SharedOut(recorded + {call}, asked, probes);
  }

  lemma ProbesAndLate(c: Config, h: seq<Event>, j: nat, call: nat)
    requires c.Valid() && Legal(c, h) && ProbingSince(c, h, j)
    requires Inside(Run(c, h), call) && Run(c, h).inner[call].Decided? && Run(c, h).inner[call].ok
    ensures var recorded := RecordedSince(h, j) + {call};
            var late := recorded - AskedSince(h, j);
            && |recorded| == Run(c, h).breaker.successes + 1 <= |AdmittedSince(c, h, j)| + |late|
            && late <= Hopeful(StateAt(c, h, j))
  {
    ProbesCounted(c, h, j);
    ProbesOrRefused(c, h, j);
    LateWereHopeful(c, h, j);
    Shares(StateAt(c, h, j), Run(c, h), call, RecordedSince(h, j), AskedSince(h, j), AdmittedSince(c, h, j));
  }

  /** What the next event makes a breaker close that is half-open. */
  ghost predicate Closes(c: Config, h: seq<Event>, e: Event)
    requires Legal(c, h)
  {
    && Enabled(c, Run(c, h), e) && e.Record?
    && Run(c, h).breaker.state == CB.HalfOpen && Step(c, Run(c, h), e).breaker.state == CB.Closed
  }

  /** A success that closes the breaker is the third result since the half-open entry; each of the three is
      of a probe or is late, of a call that could already succeed at the entry. Probes are a second apart, so
      without such calls closing takes three of them and two seconds. */
  lemma ThreeProbes(c: Config, h: seq<Event>, e: Event) returns (j: nat, late: set<nat>)
    requires c.Valid() && Legal(c, h) && Closes(c, h, e)
    requires forall k | 0 <= k < |h| && h[k].Ask? :: h[k].at <= e.at
    ensures ProbingSince(c, h, j) && h[j].Ask?
    ensures late == RecordedSince(h, j) + {e.call} - AskedSince(h, j) && |RecordedSince(h, j) + {e.call}| == 3
    ensures |AdmittedSince(c, h, j)| + |late| >= 3 && late <= Hopeful(StateAt(c, h, j))
    ensures (|AdmittedSince(c, h, j)| - 1) * SECOND <= e.at - h[j].at
    ensures Hopeful(StateAt(c, h, j)) == {} ==> |AdmittedSince(c, h, j)| >= 3 && e.at - h[j].at >= 2 * SECOND
  {
    j := LatestEntry(c, h);
    BreakerLayer(c, h);
    CB.StateFollowsFailures(c.breaker, BreakerSide(h));
    ProbesSpaced(c, h, j, e.at);
    ProbesAndLate(c, h, j, e.call);
    late := RecordedSince(h, j) + {e.call} - AskedSince(h, j);
    if Hopeful(StateAt(c, h, j)) == {} {
      assert late == {};
    }
  }

  // ----- how few probes can close it

  /** The times that the breaker has seen never decrease and are not after `now`. */
  predicate Timed(h: seq<Event>, now: int) {
    h == [] ||
    var es := BreakerEvents(Last(h));
    if es == [] then Timed(Front(h), now) else es[0].at <= now && Timed(Front(h), es[0].at)
  }

  lemma {:induction false} TimedLater(h: seq<Event>, now: int, later: int)
    requires Timed(h, now) && now <= later
    ensures Timed(h, later)
  {
    if h != [] && BreakerEvents(Last(h)) == [] {
      TimedLater(Front(h), now, later);
    }
  }

  lemma TimedStep(h: seq<Event>, e: Event, now: int)
    requires Timed(h, now) && (BreakerEvents(e) == [] || BreakerEvents(e)[0].at == now)
    ensures Timed(h + [e], now)
  {
    Extend(h, e);
  }

  /** `g` goes on from the half-open entry that ends `h`, and the breaker has been half-open since. */
  ghost predicate Goes(c: Config, h: seq<Event>, g: seq<Event>, now: int) {
    h != [] && h <= g && Legal(c, g) && ProbingSince(c, g, |h| - 1) && Timed(g, now)
  }

  /** The probes among the calls that have asked since the entry. */
  ghost function Probes(c: Config, h: seq<Event>, g: seq<Event>): set<nat>
    requires h != [] && Legal(c, g)
  {
    AdmittedSince(c, g, |h| - 1)
  }

  lemma OneMoreEvent(c: Config, g: seq<Event>, e: Event)
    requires Legal(c, g) && Enabled(c, Run(c, g), e)
    ensures Legal(c, g + [e]) && Run(c, g + [e]) == Step(c, Run(c, g), e)
    ensures Front(g + [e]) == g && Last(g + [e]) == e
  {
    Extend(g, e);
  }

  lemma On(c: Config, h: seq<Event>, g: seq<Event>, now: int, e: Event) returns (n: seq<Event>)
    requires Goes(c, h, g, now) && Enabled(c, Run(c, g), e) && Step(c, Run(c, g), e).breaker.state == CB.HalfOpen
    requires BreakerEvents(e) == [] || BreakerEvents(e)[0].at == now
    ensures Goes(c, h, n, now) && Run(c, n) == Step(c, Run(c, g), e)
    ensures Probes(c, h, n) == Probes(c, h, g) +
              if e.Ask? && CB.Admit(c.breaker, Run(c, g).breaker, e.at).0 == CB.Admitted then {e.call} else {}
  {
    n := g + [e];
    OneMoreEvent(c, g, e);
    TimedStep(g, e, now);
    assert ProbingSince(c, n, |h| - 1);
  }

  lemma HopefulInside(c: Config, h: seq<Event>, i: nat)
    requires c.Valid() && Legal(c, h) && i in Hopeful(Run(c, h))
    ensures Inside(Run(c, h), i)
  {
    AlwaysSound(c, h);
    assert SoundCall(c, Run(c, h).bulk.calls[i], Run(c, h).inner[i]);
  }

  /** The call's function succeeds. */
  lemma Decide(c: Config, h: seq<Event>, g: seq<Event>, now: int, i: nat) returns (n: seq<Event>)
    requires c.Valid() && Goes(c, h, g, now) && i in Hopeful(Run(c, g))
    ensures Goes(c, h, n, now) && Probes(c, h, n) == Probes(c, h, g) && Inside(Run(c, n), i)
    ensures Run(c, n) == Run(c, g).(inner := Run(c, g).inner[i := Run(c, n).inner[i]])
    ensures Run(c, n).inner[i].Decided? && Run(c, n).inner[i].ok
  {
    HopefulInside(c, g, i);
    if Run(c, g).inner[i].Trying? {
      n := On(c, h, g, now, Attempt(i, Succeeds));
    } else {
      n := g;
    }
  }

  /** A call that has reported leaves the bulkhead. */
  lemma Leave(c: Config, h: seq<Event>, g: seq<Event>, now: int, i: nat) returns (n: seq<Event>)
    requires c.Valid() && Goes(c, h, g, now) && Inside(Run(c, g), i) && Run(c, g).inner[i].Recorded?
    ensures Goes(c, h, n, now) && Probes(c, h, n) == Probes(c, h, g)
    ensures Run(c, n).inner == Run(c, g).inner && Run(c, n).breaker == Run(c, g).breaker
    ensures Run(c, n).bulk.slots == Run(c, g).bulk.slots - 1
  {
    n := On(c, h, g, now, Gate(i, BH.Returned));
    n := On(c, h, n, now, Gate(i, BH.Given));
  }

  lemma Report(c: Config, h: seq<Event>, g: seq<Event>, now: int, i: nat) returns (n: seq<Event>)
    requires Goes(c, h, g, now) && Inside(Run(c, g), i) && Run(c, g).breaker.successes < 2
    requires Run(c, g).inner[i].Decided? && Run(c, g).inner[i].ok
    ensures Goes(c, h, n, now) && Probes(c, h, n) == Probes(c, h, g) && Run(c, n).bulk == Run(c, g).bulk
    ensures Run(c, n).breaker == Run(c, g).breaker.(successes := Run(c, g).breaker.successes + 1)
    ensures Run(c, n).inner == Run(c, g).inner[i := Recorded(true, Run(c, g).inner[i].calls)]
  {
    n := On(c, h, g, now, Record(i, true, now));
  }

  lemma SlotsWithin(c: Config, h: seq<Event>)
    requires c.Valid() && Legal(c, h)
    ensures Run(c, h).bulk.slots <= c.bulkhead.maxConcurrent
  {
    BulkheadLayer(c, h);
    BH.AlwaysCounted(c.bulkhead, BulkheadSide(h));
  }

  lemma HopefulDrops(s: Exec, t: Exec, i: nat)
    requires i < |s.inner| == |t.inner| && t.inner == s.inner[i := t.inner[i]] && t.inner[i].Recorded?
    ensures Hopeful(t) == Hopeful(s) - {i}
  {
  }

  /** A call that may succeed does so, reports it as the first or second success, and leaves. */
  lemma Succeed(c: Config, h: seq<Event>, g: seq<Event>, now: int, i: nat) returns (n: seq<Event>)
    requires c.Valid() && Goes(c, h, g, now) && i in Hopeful(Run(c, g)) && Run(c, g).breaker.successes < 2
    ensures Goes(c, h, n, now) && Probes(c, h, n) == Probes(c, h, g)
    ensures Run(c, n).breaker == Run(c, g).breaker.(successes := Run(c, g).breaker.successes + 1)
    ensures Hopeful(Run(c, n)) == Hopeful(Run(c, g)) - {i}
    ensures Run(c, n).bulk.slots < c.bulkhead.maxConcurrent
  {
    n := Decide(c, h, g, now, i);
    n := Report(c, h, n, now, i);
    SlotsWithin(c, n);
    n := Leave(c, h, n, now, i);
    HopefulDrops(Run(c, g), Run(c, n), i);
  }

  /** A new call passes the bulkhead. */
  lemma Join(c: Config, h: seq<Event>, g: seq<Event>, now: int) returns (n: seq<Event>)
    requires c.Valid() && Goes(c, h, g, now) && Run(c, g).bulk.slots < c.bulkhead.maxConcurrent
    ensures Goes(c, h, n, now) && Probes(c, h, n) == Probes(c, h, g) && Inside(Run(c, n), |Run(c, g).inner|)
    ensures Run(c, n).inner == Run(c, g).inner + [Outside] && Run(c, n).breaker == Run(c, g).breaker
  {
    AlwaysSound(c, g);
    var k := |Run(c, g).inner|;
    n := On(c, h, g, now, Enter);
    n := On(c, h, n, now, Gate(k, BH.Waiting));
    n := On(c, h, n, now, Gate(k, BH.Taken));
    n := On(c, h, n, now, Gate(k, BH.Running));
  }

  /** And becomes a probe, a second after the last one. */
  lemma NewProbe(c: Config, h: seq<Event>, g: seq<Event>, now: int) returns (n: seq<Event>, k: nat)
    requires c.Valid() && Goes(c, h, g, now) && Run(c, g).bulk.slots < c.bulkhead.maxConcurrent
    requires Run(c, g).breaker.lastAttempt == now
    ensures Goes(c, h, n, now + SECOND) && Probes(c, h, n) == Probes(c, h, g) + {k}
    ensures Run(c, n).breaker == Run(c, g).breaker.(lastAttempt := now + SECOND)
    ensures k in Hopeful(Run(c, n))
  {
    k := |Run(c, g).inner|;
    TimedLater(g, now, now + SECOND);
    n := Join(c, h, g, now + SECOND);
    n := On(c, h, n, now + SECOND, Ask(k, now + SECOND));
  }

  /** A run from the entry that ends `h` to the success that closes the breaker, with at most `n` probes. */
  ghost predicate ClosesWith(c: Config, h: seq<Event>, g: seq<Event>, e: Event, n: nat) {
    && h != [] && h <= g && Legal(c, g) && ProbingSince(c, g, |h| - 1) && Closes(c, g, e)
    && Timed(g + [e], e.at) && |Probes(c, h, g)| <= n
  }

  /** The third success. */
  lemma Finish(c: Config, h: seq<Event>, p: seq<Event>, now: int, i: nat, n: nat) returns (g: seq<Event>, e: Event)
    requires c.Valid() && Goes(c, h, p, now) && i in Hopeful(Run(c, p)) && Run(c, p).breaker.successes == 2
    requires |Probes(c, h, p)| <= n
    ensures ClosesWith(c, h, g, e, n)
  {
    g := Decide(c, h, p, now, i);
    e := Record(i, true, now);
    TimedStep(g, e, now);
  }

  /** Right after the entry the only probe is the call that has made it. */
  lemma AtEntry(c: Config, h: seq<Event>)
    requires c.Valid() && Legal(c, h) && h != [] && ProbingSince(c, h, |h| - 1)
    ensures Last(h).Ask? && Run(c, h).breaker.successes == 0 && Run(c, h).breaker.lastAttempt == Last(h).at
    ensures Probes(c, h, h) == {Last(h).call} && Last(h).call !in Hopeful(Run(c, Front(h)))
    ensures Hopeful(Run(c, h)) == Hopeful(Run(c, Front(h))) + {Last(h).call}
  {
    assert AdmittedSince(c, Front(h), |h| - 1) == {};
  }

  lemma AddOne(a: set<nat>, k: nat)
    ensures |a + {k}| <= |a| + 1
  {
    assert k in a ==> a + {k} == a;
  }

  /** Two late successes, then the one of the probe that has made the entry. */
  lemma OneProbe(c: Config, h: seq<Event>, r: seq<Event>, now: int, n: nat, a: nat, b: nat, p: nat)
    returns (g: seq<Event>, e: Event)
    requires c.Valid() && Goes(c, h, r, now) && {a, b, p} <= Hopeful(Run(c, r)) && a != b && p != a && p != b
    requires Run(c, r).breaker.successes == 0 && |Probes(c, h, r)| <= n
    ensures ClosesWith(c, h, g, e, n)
  {
    g := Succeed(c, h, r, now, a);
    g := Succeed(c, h, g, now, b);
    g, e := Finish(c, h, g, now, p, n);
  }

  /** A success of a call on hand, late or not, and then one of a new probe. */
  lemma OneMoreProbe(c: Config, h: seq<Event>, r: seq<Event>, now: int, n: nat, a: nat) returns (g: seq<Event>, e: Event)
    requires c.Valid() && Goes(c, h, r, now) && a in Hopeful(Run(c, r))
    requires Run(c, r).breaker.successes == 1 && Run(c, r).breaker.lastAttempt == now && |Probes(c, h, r)| < n
    ensures ClosesWith(c, h, g, e, n)
  {
    g := Succeed(c, h, r, now, a);
    var before, k := g, 0;
    g, k := NewProbe(c, h, g, now);
    AddOne(Probes(c, h, before), k);
    g, e := Finish(c, h, g, now + SECOND, k, n);
  }

  lemma TwoProbes(c: Config, h: seq<Event>, r: seq<Event>, now: int, n: nat, a: nat, p: nat)
    returns (g: seq<Event>, e: Event)
    requires c.Valid() && Goes(c, h, r, now) && a in Hopeful(Run(c, r)) && p in Hopeful(Run(c, r)) && a != p
    requires Run(c, r).breaker.successes == 0 && Run(c, r).breaker.lastAttempt == now && |Probes(c, h, r)| < n
    ensures ClosesWith(c, h, g, e, n)
  {
    g := Succeed(c, h, r, now, a);
    g, e := OneMoreProbe(c, h, g, now, n, p);
  }

  lemma OnlyProbes(c: Config, h: seq<Event>, r: seq<Event>, now: int, n: nat, p: nat) returns (g: seq<Event>, e: Event)
    requires c.Valid() && Goes(c, h, r, now) && p in Hopeful(Run(c, r))
    requires Run(c, r).breaker.successes == 0 && Run(c, r).breaker.lastAttempt == now && |Probes(c, h, r)| + 1 < n
    ensures ClosesWith(c, h, g, e, n)
  {
    g := Succeed(c, h, r, now, p);
    var before, k := g, 0;
    g, k := NewProbe(c, h, g, now);
    AddOne(Probes(c, h, before), k);
    g, e := OneMoreProbe(c, h, g, now + SECOND, n, k);
  }

  lemma {:induction false} StateBefore(c: Config, h: seq<Event>, g: seq<Event>)
    requires Legal(c, g) && h != [] && h <= g
    ensures Legal(c, h) && StateAt(c, g, |h| - 1) == Run(c, Front(h))
  {
    if |g| == |h| {
      assert g == h;
    } else {
      assert h <= Front(g);
      StateBefore(c, h, Front(g));
    }
  }

  lemma {:induction false} EntryIsProbe(c: Config, h: seq<Event>, j: nat)
    requires Legal(c, h) && ProbingSince(c, h, j)
    ensures AdmittedSince(c, h, j) != {}
  {
    if j < |h| - 1 {
      EntryIsProbe(c, Front(h), j);
    }
  }

  lemma Fewer(a: set<nat>, b: set<nat>)
    requires a <= b
    ensures |a| <= |b|
  {
    assert b == a + (b - a);
  }

  lemma AtLeast(c: Config, h: seq<Event>, g: seq<Event>, e: Event, n: nat)
    requires c.Valid() && Legal(c, h) && ClosesWith(c, h, g, e, n)
    ensures n >= 1 && n + |Hopeful(Run(c, Front(h)))| >= 3
  {
    var j := |h| - 1;
    EntryIsProbe(c, g, j);
    assert AdmittedSince(c, g, j) != {};
    StateBefore(c, h, g);
    ProbesAndLate(c, g, j, e.call);
    var late := RecordedSince(g, j) + {e.call} - AskedSince(g, j);
    Fewer(late, Hopeful(Run(c, Front(h))));
  }

  lemma CanClose(c: Config, h: seq<Event>, n: nat) returns (g: seq<Event>, e: Event)
    requires c.Valid() && Legal(c, h) && h != [] && ProbingSince(c, h, |h| - 1) && Timed(h, Last(h).at)
    requires n >= 1 && n + |Hopeful(Run(c, Front(h)))| >= 3
    ensures ClosesWith(c, h, g, e, n)
  {
    AtEntry(c, h);
    var hopeful, p, now := Hopeful(Run(c, Front(h))), Last(h).call, Last(h).at;
    if hopeful == {} {
      g, e := OnlyProbes(c, h, h, now, n, p);
    } else {
      var a :| a in hopeful;
      var others := hopeful - {a};
      if others == {} {
        assert hopeful == {a};
        g, e := TwoProbes(c, h, h, now, n, a, p);
      } else {
        var b :| b in others;
        g, e := OneProbe(c, h, h, now, n, a, b, p);
      }
    }
  }

  /** From a half-open entry on, the breaker can be closed after at most `n` probes if and only if `n` and the
      calls that could already succeed when the entry was made are three together. So three probes are
      needed exactly when no such call was there. */
  lemma FewestProbesExactly(c: Config, h: seq<Event>, n: nat)
    requires c.Valid() && Legal(c, h) && h != [] && ProbingSince(c, h, |h| - 1) && Timed(h, Last(h).at)
    ensures (exists g, e :: ClosesWith(c, h, g, e, n)) <==> n >= 1 && n + |Hopeful(Run(c, Front(h)))| >= 3
  {
    if n >= 1 && n + |Hopeful(Run(c, Front(h)))| >= 3 {
      var g, e := CanClose(c, h, n);
    } else if g, e :| ClosesWith(c, h, g, e, n) {
      AtLeast(c, h, g, e, n);
    }
  }
}
