/**
 The per-consumer idempotency lease of eventsourcing/idempotency.go.

 Every statement of the source names one (event, consumer) pair, so the protocol is about the row of
 one pair. Claim is three separate points in time: the clock is read, the upsert runs, and, when the
 upsert did nothing, the row is read again. Other deliveries may act between any two of them.
 */
module Idempotency {
  import opened Common

  const DEFAULT_CLAIM_LEASE := 120 * SECOND

  datatype Row = Row(processedAt: int, completedAt: Option<int>)

  datatype ClaimResult = Acquired | Completed | InProgress(retryAfter: int)

  /** Claim's default for a lease that is not positive. */
  function EffectiveLease(lease: int): (r: int)
    ensures r == if lease > 0 then lease else 120_000_000_000
  {
    if lease <= 0 then DEFAULT_CLAIM_LEASE else lease
  }

  // ----- the statements

  predicate InFlight(row: Option<Row>) {
    row.Some? && row.value.completedAt == None
  }

  predicate IsCompleted(row: Option<Row>) {
    row.Some? && row.value.completedAt.Some?
  }

  /** Whether the upsert of Claim inserts or takes over. */
  predicate Takes(row: Option<Row>, now: int, lease: int) {
    row == None || (InFlight(row) && row.value.processedAt < now - lease)
  }

  function Upsert(row: Option<Row>, now: int, lease: int): Option<Row> {
    if Takes(row, now, lease) then Some(Row(now, None)) else row
  }

  /** The second statement of Claim. */
  function Answer(row: Option<Row>, now: int, lease: int): ClaimResult {
    if row == None then InProgress(SECOND)
    else if IsCompleted(row) then Completed
    else InProgress(Max(row.value.processedAt + lease - now, SECOND))
  }

  function CompleteRow(row: Option<Row>, now: int): Option<Row> {
    if InFlight(row) then Some(row.value.(completedAt := Some(now))) else row
  }

  function MarkRow(row: Option<Row>, now: int): Option<Row> {
    if row == None then Some(Row(now, Some(now))) else row
  }

  // ----- histories of one pair

  type Delivery = nat

  datatype Phase =
    | Asking(now: int, lease: int)
    | Missed(now: int, lease: int)
    | Running(claimedAt: int)
    | Succeeded(claimedAt: int)

  predicate Working(p: Phase) {
    p.Running? || p.Succeeded?
  }

  datatype Pair = Pair(row: Option<Row>, phase: map<Delivery, Phase>)

  const UNTOUCHED := Pair(None, map[])

  /** The events of a history carry what the callers see: claim times and answers. */
  datatype Event =
    | ReadClock(d: Delivery, lease: int, at: int)
    | TryClaim(d: Delivery, now: int, lease: int, acquired: bool, at: int)
    | Inspect(d: Delivery, now: int, lease: int, answer: ClaimResult, at: int)
    | HandlerOk(d: Delivery, at: int)
    | Complete(d: Delivery, ok: bool, at: int)
    | Release(d: Delivery, at: int)
    | Crash(d: Delivery, succeeded: bool, at: int)
    | CheckAndMark(d: Delivery, first: bool, at: int)

  /** What the source lets happen. Complete, Release and CheckAndMark check no owner, so any caller
      may issue them at any time. */
  predicate Enabled(s: Pair, e: Event) {
    match e
    case ReadClock(d, _, _) => d !in s.phase
    case TryClaim(d, now, lease, acquired, _) =>
      d in s.phase && s.phase[d] == Asking(now, lease) && acquired == Takes(s.row, now, lease)
    case Inspect(d, now, lease, answer, _) =>
      d in s.phase && s.phase[d] == Missed(now, lease) && answer == Answer(s.row, now, lease)
    case HandlerOk(d, _) => d in s.phase && s.phase[d].Running?
    case Complete(_, ok, _) => ok == InFlight(s.row)
    case Release(_, _) => true
    case Crash(d, succeeded, _) => d in s.phase && s.phase[d].Succeeded? == succeeded
    case CheckAndMark(d, first, _) => d !in s.phase && first == (s.row == None)
  }

  function Step(s: Pair, e: Event): Pair
    requires Enabled(s, e)
  {
    match e
    case ReadClock(d, lease, at) => s.(phase := s.phase[d := Asking(at, EffectiveLease(lease))])
    case TryClaim(d, now, lease, acquired, _) =>
      Pair(Upsert(s.row, now, lease), s.phase[d := if acquired then Running(now) else Missed(now, lease)])
    case Inspect(d, _, _, _, _) => s.(phase := s.phase - {d})
    case HandlerOk(d, _) => s.(phase := s.phase[d := Succeeded(s.phase[d].claimedAt)])
    case Complete(d, _, at) => Pair(CompleteRow(s.row, at), s.phase - {d})
    case Release(d, _) => Pair(None, s.phase - {d})
    case Crash(d, _, _) => s.(phase := s.phase - {d})
    case CheckAndMark(d, first, at) =>
      Pair(MarkRow(s.row, at), if first then s.phase[d := Running(at)] else s.phase)
  }

  ghost predicate Legal(h: seq<Event>)
    decreases |h|, 0
  {
    h == [] || (Legal(Front(h)) && Enabled(Run(Front(h)), Last(h)))
  }

  ghost function Run(h: seq<Event>): Pair
    requires Legal(h)
    decreases |h|, 1
  {
    if h == [] then UNTOUCHED else Step(Run(Front(h)), Last(h))
  }

  lemma {:induction false} LegalPrefix(h: seq<Event>, k: nat)
    requires Legal(h) && k <= |h|
    ensures Legal(h[..k])
    ensures k < |h| ==> Enabled(Run(h[..k]), h[k])
  {
    if k == |h| {
      assert h[..k] == h;
    } else {
      assert h[..k] == Front(h)[..k];
      if k < |h| - 1 {
        LegalPrefix(Front(h), k);
      }
    }
  }

  // ----- guarantees with no assumption on how long a handler takes

  predicate Acquisition(e: Event) {
    e.TryClaim? && e.acquired
  }

  predicate Completion(e: Event) {
    (e.Complete? && e.ok) || (e.CheckAndMark? && e.first)
  }

  /** With which time an event puts a handler to work. */
  function StartOf(e: Event): Option<int> {
    if e.TryClaim? && e.acquired then Some(e.now)
    else if e.CheckAndMark? && e.first then Some(e.at)
    else None
  }

  predicate StartedAt(h: seq<Event>, d: Delivery, at: int) {
    exists i | 0 <= i < |h| :: h[i].d == d && StartOf(h[i]) == Some(at)
  }

  /** Between its statements a claim keeps a positive lease. */
  lemma {:induction false} LeasesPositive(h: seq<Event>)
    requires Legal(h)
    ensures forall d | d in Run(h).phase && Run(h).phase[d].Asking? :: Run(h).phase[d].lease > 0
  {
    if h != [] {
      LeasesPositive(Front(h));
    }
  }

  predicate NoRelease(h: seq<Event>) {
    forall e | e in h :: !e.Release?
  }

  predicate Opens(e: Event) {
    Acquisition(e) || (e.CheckAndMark? && e.first)
  }

  /** An event of the kind has happened, with no Release after it. */
  ghost predicate SinceRelease(h: seq<Event>, kind: Event -> bool) {
    exists i | 0 <= i < |h| :: kind(h[i]) && NoRelease(h[i + 1..])
  }

  lemma NoReleaseStep(h: seq<Event>, i: nat)
    requires i < |h| - 1
    ensures NoRelease(h[i + 1..]) <==> !Last(h).Release? && NoRelease(Front(h)[i + 1..])
  {
    assert h[i + 1..] == Front(h)[i + 1..] + [Last(h)];
  }

  lemma SinceReleaseStep(h: seq<Event>, kind: Event -> bool)
    requires h != [] && (kind(Last(h)) ==> !Last(h).Release?)
    ensures SinceRelease(h, kind) <==> kind(Last(h)) || (!Last(h).Release? && SinceRelease(Front(h), kind))
  {
    var p := Front(h);
    if kind(Last(h)) {
      assert kind(h[|h| - 1]) && NoRelease(h[|h| - 1 + 1..]);
    } else {
      if i :| 0 <= i < |h| && kind(h[i]) && NoRelease(h[i + 1..]) {
        NoReleaseStep(h, i);
        assert kind(p[i]);
      }
      if i :| 0 <= i < |p| && kind(p[i]) && NoRelease(p[i + 1..]) {
        NoReleaseStep(h, i);
        assert kind(h[i]);
      }
    }
  }

  /** The row says exactly what has happened since the latest Release: it exists if and only if somebody
      has claimed or marked since, and is completed if and only if somebody has completed it since. So a
      Release reopens the event, and nothing else undoes a completion. */
  lemma {:induction false} RowRecordsExactly(h: seq<Event>)
    requires Legal(h)
    ensures Run(h).row.Some? <==> SinceRelease(h, Opens)
    ensures IsCompleted(Run(h).row) <==> SinceRelease(h, Completion)
  {
    if h != [] {
      RowRecordsExactly(Front(h));
      SinceReleaseStep(h, Opens);
      SinceReleaseStep(h, Completion);
    }
  }

  /** The time of the claim or mark that opened the event since the latest Release. */
  function OpenedAt(h: seq<Event>): Option<int> {
    if h == [] || Last(h).Release? then None
    else if Acquisition(Last(h)) then Some(Last(h).now)
    else if Last(h).CheckAndMark? && Last(h).first then Some(Last(h).at)
    else OpenedAt(Front(h))
  }

  /** The time of its completion since then. */
  function CompletedAt(h: seq<Event>): Option<int> {
    if h == [] || Last(h).Release? then None
    else if Completion(Last(h)) then Some(Last(h).at)
    else CompletedAt(Front(h))
  }

  /** The row holds exactly these two times. */
  lemma {:induction false} RowRemembers(h: seq<Event>)
    requires Legal(h)
    ensures Run(h).row == if OpenedAt(h) == None then None else Some(Row(OpenedAt(h).value, CompletedAt(h)))
    ensures OpenedAt(h) == None ==> CompletedAt(h) == None
  {
    if h != [] {
      RowRemembers(Front(h));
    }
  }

  /** Every answer, from what has happened before: a claim wins exactly on an event that is not open, or that
      was opened more than its lease ago and not completed; and a claim that did not win is told so, and how
      long to wait: until its lease after the opening, and a second at least. */
  lemma AnswersExactly(h: seq<Event>, k: nat)
    requires Legal(h) && k < |h|
    ensures var e, start, end := h[k], OpenedAt(h[..k]), CompletedAt(h[..k]);
            match e
            case TryClaim(_, now, lease, acquired, _) =>
              acquired <==> start == None || (end == None && now - start.value > lease)
            case Inspect(_, now, lease, answer, _) =>
              answer == (if start == None then InProgress(1_000_000_000)
                         else if end.Some? then Completed
                         else if start.value + lease - now < 1_000_000_000 then InProgress(1_000_000_000)
                         else InProgress(start.value + lease - now))
            case Complete(_, ok, _) => ok <==> start.Some? && end == None
            case CheckAndMark(_, first, _) => first <==> start == None
            case _ => true
  {
    LegalPrefix(h, k);
    RowRemembers(h[..k]);
  }

  lemma OneMore(h: seq<Event>, e: Event) returns (g: seq<Event>)
    requires Legal(h) && Enabled(Run(h), e)
    ensures Legal(g) && h < g && Last(g) == e && Run(g) == Step(Run(h), e)
  {
    g := h + [e];
    Extend(h, e);
  }

  /** A delivery that starts to claim is answered in any state, and puts its handler to work exactly when the
      event is not open, or was opened more than the lease ago and not completed. */
  lemma ClaimRuns(h: seq<Event>, d: Delivery, lease: int, at: int) returns (g: seq<Event>)
    requires Legal(h) && d !in Run(h).phase
    ensures Legal(g) && h < g
    ensures d in Run(g).phase <==>
              OpenedAt(h) == None || (CompletedAt(h) == None && at - OpenedAt(h).value > EffectiveLease(lease))
    ensures d in Run(g).phase ==> Run(g).phase[d] == Running(at) && Run(g).row == Some(Row(at, None))
    ensures d !in Run(g).phase ==> Run(g) == Run(h) && Last(g).Inspect? && Last(g).d == d
  {
    RowRemembers(h);
    var s, l := Run(h), EffectiveLease(lease);
    var wins := Takes(s.row, at, l);
    g := OneMore(h, ReadClock(d, lease, at));
    g := OneMore(g, TryClaim(d, at, l, wins, at));
    if !wins {
      g := OneMore(g, Inspect(d, at, l, Answer(s.row, at, l), at));
      assert Run(g).phase == s.phase;
    }
  }

  /** A handler at work may succeed, and its process may die at any point. */
  lemma HandlerRunsOn(h: seq<Event>, d: Delivery, at: int)
    requires Legal(h) && d in Run(h).phase
    ensures Run(h).phase[d].Running? ==> Legal(h + [HandlerOk(d, at)])
    ensures Legal(h + [Crash(d, Run(h).phase[d].Succeeded?, at)])
    ensures Run(h + [Crash(d, Run(h).phase[d].Succeeded?, at)]).row == Run(h).row
  {
    Extend(h, HandlerOk(d, at));
    Extend(h, Crash(d, Run(h).phase[d].Succeeded?, at));
  }

  /** The older CheckAndMark is answered in any state as well. */
  lemma MarkRuns(h: seq<Event>, d: Delivery, at: int)
    requires Legal(h) && d !in Run(h).phase
    ensures Legal(h + [CheckAndMark(d, OpenedAt(h) == None, at)])
  {
    RowRemembers(h);
    Extend(h, CheckAndMark(d, OpenedAt(h) == None, at));
  }

  /** The statements of one claim agree on its time and lease. */
  lemma {:induction false} PhasesRemember(h: seq<Event>, d: Delivery)
    requires Legal(h) && d in Run(h).phase
    ensures match Run(h).phase[d]
            case Asking(now, lease) =>
              exists i | 0 <= i < |h| :: h[i].ReadClock? && h[i].d == d && h[i].at == now && EffectiveLease(h[i].lease) == lease
            case Missed(now, lease) =>
              exists i | 0 <= i < |h| :: h[i].TryClaim? && h[i].d == d && h[i].now == now && h[i].lease == lease && !h[i].acquired
            case Running(at) => StartedAt(h, d, at)
            case Succeeded(at) => StartedAt(h, d, at)
  {
    var p, e, s := Front(h), Last(h), Run(Front(h));
    assert forall i | 0 <= i < |p| :: p[i] == h[i];
    assert h[|h| - 1] == e;
    if d in s.phase && (e.HandlerOk? || Run(h).phase[d] == s.phase[d]) {
      PhasesRemember(p, d);
      if Working(s.phase[d]) {
        var i :| 0 <= i < |p| && p[i].d == d && StartOf(p[i]) == Some(s.phase[d].claimedAt);
        assert StartOf(h[i]) == Some(s.phase[d].claimedAt);
      }
    } else if Opens(e) {
      assert StartOf(h[|h| - 1]).Some?;
    }
  }

  /** "Already handled" is answered exactly when some delivery has completed the event with no Release
      since. */
  lemma CompletedAnswerIsEarned(h: seq<Event>, k: nat)
    requires Legal(h) && k < |h| && h[k].Inspect?
    ensures h[k].answer == Completed <==> SinceRelease(h[..k], Completion)
  {
    LegalPrefix(h, k);
    RowRecordsExactly(h[..k]);
  }

  /** Without a release the claim time in the row only grows. */
  lemma {:induction false} ClaimTimeGrows(h: seq<Event>, i: nat)
    requires Legal(h) && i < |h| && Acquisition(h[i]) && NoRelease(h[i + 1..])
    ensures Run(h).row.Some? && Run(h).row.value.processedAt >= h[i].now
  {
    LeasesPositive(Front(h));
    if i < |h| - 1 {
      assert h[i + 1..] == Front(h)[i + 1..] + [Last(h)];
      ClaimTimeGrows(Front(h), i);
      assert Last(h) in h[i + 1..];
    }
  }

  /** Two acquisitions with no release between them are more than the later one's lease apart. */
  lemma AcquisitionsApart(h: seq<Event>, i: nat, j: nat)
    requires Legal(h) && i < j < |h| && Acquisition(h[i]) && Acquisition(h[j])
    requires NoRelease(h[i + 1..j])
    ensures h[j].now - h[i].now > h[j].lease
  {
    LegalPrefix(h, j);
    assert h[..j][i + 1..] == h[i + 1..j];
    ClaimTimeGrows(h[..j], i);
  }

  /** Racing claims: once a claim has found the pair fresh or stale, it wins, and of all the claims made
      within their leases of it, until a Release, no other does, whatever else happens in between. */
  lemma OneWinner(h: seq<Event>, k: nat)
    requires Legal(h) && k < |h| && NoRelease(h[k + 1..]) && h[k].TryClaim?
    requires Legal(h[..k]) && Takes(Run(h[..k]).row, h[k].now, h[k].lease)
    requires forall j | k < j < |h| && h[j].TryClaim? :: h[j].now - h[k].now <= h[j].lease
    ensures forall j | k <= j < |h| && h[j].TryClaim? :: h[j].acquired <==> j == k
  {
    LegalPrefix(h, k);
    forall j | k < j < |h| && h[j].TryClaim? ensures !h[j].acquired {
      if h[j].acquired {
        assert h[k + 1..j] <= h[k + 1..];
        AcquisitionsApart(h, k, j);
      }
    }
  }

  /** RetryAfter is exact: with the row unchanged a claim of the same lease wins if and only if it is
      later than the end of the lease, and every claim later than RetryAfter is. The boundary
      instant still belongs to the holder. */
  lemma RetryAfterSuffices(row: Option<Row>, now: int, lease: int, later: int)
    requires InFlight(row) && Answer(row, now, lease).InProgress?
    ensures Takes(row, later, lease) <==> later > row.value.processedAt + lease
    ensures later > now + Answer(row, now, lease).retryAfter ==> Takes(row, later, lease)
    ensures Answer(row, now, lease).retryAfter > SECOND && later <= now + Answer(row, now, lease).retryAfter ==>
              !Takes(row, later, lease)
    ensures Answer(row, now, lease).retryAfter >= SECOND
  {
  }

  // ----- guarantees when every handler ends within the lease

  ghost predicate Monotone(h: seq<Event>) {
    forall i, j | 0 <= i < j < |h| :: h[i].at <= h[j].at
  }

  /** A consumer as the source asks for it: Complete after success, Release after failure, each by
      the delivery that holds the claim, and no use of the older CheckAndMark. */
  predicate Proper(s: Pair, e: Event) {
    match e
    case Complete(d, _, _) => d in s.phase && s.phase[d].Succeeded?
    case Release(d, _) => d in s.phase && s.phase[d].Running?
    case CheckAndMark(_, _, _) => false
    case _ => true
  }

  /** While a handler works, nothing happens later than `lease` after its claim time; that is, it
      completes, releases or dies within the lease. */
  predicate Timely(s: Pair, e: Event, lease: int) {
    forall d | d in s.phase && Working(s.phase[d]) :: e.at <= s.phase[d].claimedAt + lease
  }

  /** Every claim asks for at least the common lease. */
  predicate AsksAtLeast(e: Event, lease: int) {
    e.ReadClock? ==> EffectiveLease(e.lease) >= lease
  }

  ghost predicate Disciplined(h: seq<Event>, lease: int) {
    && Legal(h) && Monotone(h)
    && (h == [] ||
        (Disciplined(Front(h), lease) && Proper(Run(Front(h)), Last(h))
         && Timely(Run(Front(h)), Last(h), lease) && AsksAtLeast(Last(h), lease)))
  }

  /** At most one handler works, and it is the one whose claim is in the row. */
  predicate Sole(s: Pair) {
    && (forall d | d in s.phase && Working(s.phase[d]) :: s.row == Some(Row(s.phase[d].claimedAt, None)))
    && (forall d, f | d in s.phase && f in s.phase && Working(s.phase[d]) && Working(s.phase[f]) :: d == f)
  }

  /** Moreover claims that are still being made carry a past time and at least the common lease. */
  predicate Exclusive(s: Pair, lease: int, now: int) {
    && Sole(s)
    && (forall d | d in s.phase && s.phase[d].Asking? :: s.phase[d].now <= now && s.phase[d].lease >= lease)
  }

  lemma ExclusiveStep(s: Pair, e: Event, lease: int, now: int)
    requires Enabled(s, e) && Exclusive(s, lease, now) && now <= e.at
    requires Proper(s, e) && Timely(s, e, lease) && AsksAtLeast(e, lease)
    ensures Exclusive(Step(s, e), lease, e.at)
    ensures IsCompleted(s.row) ==> Step(s, e).row == s.row
    ensures e.Complete? ==> e.ok
    ensures e.Release? ==> s.row == Some(Row(s.phase[e.d].claimedAt, None))
  {
  }

  lemma {:induction false} AtMostOneHandler(h: seq<Event>, lease: int)
    requires Disciplined(h, lease) && h != []
    ensures Exclusive(Run(h), lease, Last(h).at)
  {
    var p := Front(h);
    if p == [] {
      ExclusiveStep(Run(p), Last(h), lease, Last(h).at);
    } else {
      AtMostOneHandler(p, lease);
      assert h[|h| - 2].at <= h[|h| - 1].at;
      ExclusiveStep(Run(p), Last(h), lease, Last(p).at);
    }
  }

  /** Under the discipline Complete never reports a missing claim, Release removes only the caller's
      own claim, and a completed row never changes again. */
  lemma DisciplinePays(h: seq<Event>, lease: int)
    requires Disciplined(h, lease) && h != []
    ensures Last(h).Complete? ==> Last(h).ok
    ensures Last(h).Release? ==> Run(Front(h)).row == Some(Row(Run(Front(h)).phase[Last(h).d].claimedAt, None))
    ensures IsCompleted(Run(Front(h)).row) ==> Run(h).row == Run(Front(h)).row
  {
    var p := Front(h);
    if p == [] {
      ExclusiveStep(Run(p), Last(h), lease, Last(h).at);
    } else {
      AtMostOneHandler(p, lease);
      assert h[|h| - 2].at <= h[|h| - 1].at;
      ExclusiveStep(Run(p), Last(h), lease, Last(p).at);
    }
  }

  // ----- without the time bound

  lemma Then(h: seq<Event>, e: Event)
    requires Legal(h) && Enabled(Run(h), e)
    ensures Legal(h + [e]) && Run(h + [e]) == Step(Run(h), e)
  {
    Extend(h, e);
  }

  /** Some two different deliveries both have their handler at work. */
  ghost predicate TwoAtWork(s: Pair) {
    exists d, f | d in s.phase && f in s.phase :: d != f && Working(s.phase[d]) && Working(s.phase[f])
  }

  /** A history of proper consumers in which nobody promises to finish in time. */
  ghost predicate Unhurried(h: seq<Event>) {
    && Legal(h) && Monotone(h)
    && (h == [] || (Unhurried(Front(h)) && Proper(Run(Front(h)), Last(h))))
  }

  ghost predicate EverTwoAtWork(h: seq<Event>)
    requires Legal(h)
  {
    h != [] && (TwoAtWork(Run(h)) || EverTwoAtWork(Front(h)))
  }

  /** A claim that wins although it was made after a handler had begun to work and is still at work: it is
      later than its own lease after that handler's claim time. */
  predicate TakesOver(s: Pair, e: Event) {
    Acquisition(e) && exists d | d in s.phase :: Working(s.phase[d]) && e.now > s.phase[d].claimedAt + e.lease
  }

  ghost predicate EverTakenOver(h: seq<Event>)
    requires Legal(h)
  {
    h != [] && (TakesOver(Run(Front(h)), Last(h)) || EverTakenOver(Front(h)))
  }

  lemma SoleStep(s: Pair, e: Event)
    requires Enabled(s, e) && Sole(s) && Proper(s, e)
    ensures TwoAtWork(Step(s, e)) <==> TakesOver(s, e)
    ensures TwoAtWork(Step(s, e)) || Sole(Step(s, e))
  {
    var n := Step(s, e);
    if TakesOver(s, e) {
      var d :| d in s.phase && Working(s.phase[d]) && e.now > s.phase[d].claimedAt + e.lease;
      assert d in n.phase && e.d in n.phase && d != e.d && Working(n.phase[d]) && Working(n.phase[e.d]);
    } else if e.TryClaim? && e.acquired {
      assert forall d | d in s.phase :: !Working(s.phase[d]);
    }
  }

  /** In every run of proper consumers, however long their handlers take, two handlers are ever at work
      at once if and only if some claim won later than its own lease after the claim time of a handler
      still at work. */
  lemma {:induction false} ExclusionBreaksExactly(h: seq<Event>)
    requires Unhurried(h)
    ensures EverTwoAtWork(h) <==> EverTakenOver(h)
    ensures EverTwoAtWork(h) || Sole(Run(h))
  {
    if h != [] {
      ExclusionBreaksExactly(Front(h));
      if !EverTwoAtWork(Front(h)) {
        SoleStep(Run(Front(h)), Last(h));
      }
    }
  }

  lemma GoOn(h: seq<Event>, e: Event) returns (n: seq<Event>)
    requires Unhurried(h) && Enabled(Run(h), e) && Proper(Run(h), e)
    requires h != [] ==> Last(h).at <= e.at
    ensures n != [] && Front(n) == h && Last(n) == e
    ensures Unhurried(n) && Run(n) == Step(Run(h), e)
    ensures EverTwoAtWork(n) <==> TwoAtWork(Run(n)) || EverTwoAtWork(h)
  {
    n := h + [e];
    Extend(h, e);
    Then(h, e);
    forall i, j | 0 <= i < j < |n| ensures n[i].at <= n[j].at {
      if i < |h| - 1 {
        assert h[i].at <= h[|h| - 1].at;
      }
    }
  }

  /** As long as nobody has taken over from a handler at work, the promises hold with no bound on how long a
      handler takes: Complete finds its claim, Release removes the caller's own, and a completed row stays. */
  lemma PromisesHoldUntilTakeover(h: seq<Event>)
    requires Unhurried(h) && h != [] && !EverTakenOver(Front(h))
    ensures Last(h).Complete? ==> Last(h).ok
    ensures Last(h).Release? ==> Run(Front(h)).row == Some(Row(Run(Front(h)).phase[Last(h).d].claimedAt, None))
    ensures IsCompleted(Run(Front(h)).row) ==> Run(h).row == Run(Front(h)).row
  {
    ExclusionBreaksExactly(Front(h));
  }

  /** What a takeover leaves: both handlers at work, with the second one's claim in the row. */
  lemma TakeoverLeaves(s: Pair, e: Event) returns (d: Delivery)
    requires Enabled(s, e) && TakesOver(s, e)
    ensures InFlight(Step(s, e).row) && d != e.d && d in Step(s, e).phase && Working(Step(s, e).phase[d])
    ensures e.d in Step(s, e).phase && Step(s, e).phase[e.d].Running?
  {
    d :| d in s.phase && Working(s.phase[d]) && e.now > s.phase[d].claimedAt + e.lease;
  }

  /** The run ends by deleting a completed row. */
  ghost predicate Undone(g: seq<Event>) {
    Unhurried(g) && g != [] && IsCompleted(Run(Front(g)).row) && Run(g).row == None
  }

  /** `f` completes, and then `d` fails. */
  lemma UndoneByFailure(h: seq<Event>, d: Delivery, f: Delivery) returns (g: seq<Event>)
    requires Unhurried(h) && h != [] && InFlight(Run(h).row)
    requires d != f && {d, f} <= Run(h).phase.Keys && Run(h).phase[d].Running? && Run(h).phase[f].Running?
    ensures Undone(g) && |g| == |h| + 3 && Front(Front(Front(g))) == h
    ensures Last(g).Release? && Last(Front(g)).Complete? && Last(Front(Front(g))).HandlerOk?
  {
    var at := Last(h).at;
    g := GoOn(h, HandlerOk(f, at));
    g := GoOn(g, Complete(f, true, at));
    g := GoOn(g, Release(d, at));
  }

  /** `d`, which has succeeded, completes, and then `f` fails. */
  lemma UndoneBySuccess(h: seq<Event>, d: Delivery, f: Delivery) returns (g: seq<Event>)
    requires Unhurried(h) && h != [] && InFlight(Run(h).row)
    requires d != f && {d, f} <= Run(h).phase.Keys && Run(h).phase[d].Succeeded? && Run(h).phase[f].Running?
    ensures Undone(g) && |g| == |h| + 2 && Front(Front(g)) == h
    ensures Last(g).Release? && Last(Front(g)).Complete?
  {
    var at := Last(h).at;
    g := GoOn(h, Complete(d, true, at));
    g := GoOn(g, Release(f, at));
  }

  /** And from every takeover on proper consumers can break them at once: some run goes on, with no further
      claim, in which a completed row is deleted. */
  lemma TakeoverCanUndoCompletion(h: seq<Event>) returns (g: seq<Event>)
    requires Unhurried(h) && h != [] && TakesOver(Run(Front(h)), Last(h))
    ensures Undone(g) && h <= g && forall k | |h| <= k < |g| :: !g[k].TryClaim?
  {
    var f := Last(h).d;
    var d := TakeoverLeaves(Run(Front(h)), Last(h));
    if Run(h).phase[d].Running? {
      g := UndoneByFailure(h, d, f);
    } else {
      g := UndoneBySuccess(h, d, f);
    }
  }

  /** A second delivery takes over from a handler that is still at work. */
  lemma OverrunPutsTwoToWork() returns (h: seq<Event>)
    ensures Unhurried(h) && EverTwoAtWork(h) && h != [] && Last(h).at == 11
    ensures Run(h) == Pair(Some(Row(11, None)), map[1 := Running(0), 2 := Running(11)])
  {
    h := GoOn([], ReadClock(1, 10, 0));
    h := GoOn(h, TryClaim(1, 0, 10, true, 0));
    h := GoOn(h, ReadClock(2, 10, 11));
    h := GoOn(h, TryClaim(2, 11, 10, true, 11));
    assert 1 in Run(h).phase && 2 in Run(h).phase;
  }

  /** "Completed is final" fails for proper consumers that overrun: a handler that outlives its lease
      and then fails deletes the row that the delivery after it has completed. */
  lemma OverrunUndoesCompletion() returns (h: seq<Event>)
    ensures h != [] && Unhurried(h)
    ensures EverTwoAtWork(h) && IsCompleted(Run(Front(h)).row) && Run(h).row == None
  {
    h := OverrunPutsTwoToWork();
    h := GoOn(h, HandlerOk(2, 11));
    h := GoOn(h, Complete(2, true, 11));
    h := GoOn(h, Release(1, 12));
  }

  // ----- successful runs

  function Successes(h: seq<Event>): nat {
    if h == [] then 0 else Successes(Front(h)) + Hit(Last(h).HandlerOk?)
  }

  /** Crashes that fell between a handler's success and its Complete. */
  function LostSuccesses(h: seq<Event>): nat {
    if h == [] then 0 else LostSuccesses(Front(h)) + Hit(Last(h).Crash? && Last(h).succeeded)
  }

  ghost predicate AwaitingComplete(s: Pair) {
    exists d :: d in s.phase && s.phase[d].Succeeded?
  }

  lemma SuccessStep(s: Pair, e: Event)
    requires Enabled(s, e) && Sole(s) && Proper(s, e) && !TakesOver(s, e)
    ensures Hit(IsCompleted(Step(s, e).row)) + Hit(AwaitingComplete(Step(s, e))) + Hit(e.Crash? && e.succeeded)
            == Hit(IsCompleted(s.row)) + Hit(AwaitingComplete(s)) + Hit(e.HandlerOk?)
  {
    var n := Step(s, e);
    if e.HandlerOk? {
      assert n.phase[e.d].Succeeded?;
    } else if d :| d in s.phase && s.phase[d].Succeeded? {
      if d in n.phase && d != e.d {
        assert n.phase[d].Succeeded?;
      }
    }
  }

  /** Until a takeover every successful handler run is the completed one, is about to complete, or was lost in
      a crash; so without such crashes a consumer handles an event successfully at most once, however often
      the event is delivered and however long the handlers take. */
  lemma {:induction false} SuccessesUntilTakeover(h: seq<Event>)
    requires Unhurried(h) && !EverTakenOver(h)
    ensures Successes(h) == Hit(IsCompleted(Run(h).row)) + Hit(AwaitingComplete(Run(h))) + LostSuccesses(h)
    ensures Successes(h) <= 1 + LostSuccesses(h)
  {
    ExclusionBreaksExactly(h);
    if h != [] {
      SuccessesUntilTakeover(Front(h));
      ExclusionBreaksExactly(Front(h));
      SuccessStep(Run(Front(h)), Last(h));
    }
  }

  lemma {:induction false} DisciplinedNeverTakenOver(h: seq<Event>, lease: int)
    requires Disciplined(h, lease)
    ensures Unhurried(h) && !EverTakenOver(h)
  {
    if h != [] {
      DisciplinedNeverTakenOver(Front(h), lease);
      ExclusionBreaksExactly(Front(h));
      SoleStep(Run(Front(h)), Last(h));
      AtMostOneHandler(h, lease);
    }
  }

  /** In particular when every handler ends within the common lease. */
  lemma SuccessesAccounted(h: seq<Event>, lease: int)
    requires Disciplined(h, lease)
    ensures Successes(h) == Hit(IsCompleted(Run(h).row)) + Hit(AwaitingComplete(Run(h))) + LostSuccesses(h)
    ensures Successes(h) <= 1 + LostSuccesses(h)
  {
    DisciplinedNeverTakenOver(h, lease);
    SuccessesUntilTakeover(h);
  }

  /** Deliveries that have asked for the event, by Claim or by the older CheckAndMark. */
  function Asked(h: seq<Event>): nat {
    if h == [] then 0 else Asked(Front(h)) + Hit(Last(h).ReadClock? || Last(h).CheckAndMark?)
  }

  /** How often a handler was put to work. */
  function HandlerRuns(h: seq<Event>): nat {
    if h == [] then 0 else HandlerRuns(Front(h)) + Hit(Opens(Last(h)))
  }

  ghost function StillAsking(s: Pair): set<Delivery> {
    set d | d in s.phase && s.phase[d].Asking?
  }

  /** A handler is put to work only for a delivery that has asked, once for each time. */
  lemma {:induction false} HandlerRunsAsked(h: seq<Event>)
    requires Legal(h)
    ensures HandlerRuns(h) + |StillAsking(Run(h))| <= Asked(h)
  {
    if h != [] {
      var s, e := Run(Front(h)), Last(h);
      HandlerRunsAsked(Front(h));
      if e.ReadClock? {
        assert StillAsking(Run(h)) == StillAsking(s) + {e.d};
      } else {
        assert StillAsking(Run(h)) == StillAsking(s) - {e.d};
        assert e.TryClaim? ==> e.d in StillAsking(s);
      }
    }
  }

  /** Handlers that work and have not succeeded yet. */
  ghost function StillRunning(s: Pair): set<Delivery> {
    set d | d in s.phase && s.phase[d].Running?
  }

  lemma WhoStillRuns(s: Pair, e: Event)
    requires Enabled(s, e)
    ensures Opens(e) ==> StillRunning(Step(s, e)) == StillRunning(s) + {e.d}
    ensures !Opens(e) && !e.CheckAndMark? ==> StillRunning(Step(s, e)) == StillRunning(s) - {e.d}
    ensures !Opens(e) && e.CheckAndMark? ==> StillRunning(Step(s, e)) == StillRunning(s)
    ensures e.HandlerOk? ==> e.d in StillRunning(s)
  {
  }

  lemma RunningStep(s: Pair, e: Event)
    requires Enabled(s, e)
    ensures |StillRunning(Step(s, e))| + Hit(e.HandlerOk?) <= |StillRunning(s)| + Hit(Opens(e))
  {
    WhoStillRuns(s, e);
  }

  /** Every success is of a handler that was put to work. */
  lemma {:induction false} SuccessesAreRuns(h: seq<Event>)
    requires Legal(h)
    ensures Successes(h) + |StillRunning(Run(h))| <= HandlerRuns(h)
  {
    if h != [] {
      SuccessesAreRuns(Front(h));
      RunningStep(Run(Front(h)), Last(h));
    }
  }

  // ----- the object

  type Key = (string, string)

  class IdempotencyChecker {
    var rows: map<Key, Row>
    /** Nobody else writes the table. */
    const alone: bool

    constructor (alone: bool)
      ensures rows == map[] && this.alone == alone
    {
      rows := map[];
      this.alone := alone;
    }

    ghost function RowOf(k: Key): Option<Row>
      reads this
    {
      if k in rows then Some(rows[k]) else None
    }

    /** Other deliveries run their statements. */
    method Others()
      modifies this
      ensures alone ==> rows == old(rows)
    {
      if !alone {
        rows := *;
      }
    }

    method CheckAndMark(k: Key, now: int) returns (process: bool)
      modifies this
      ensures RowOf(k) == MarkRow(old(RowOf(k)), now) && process == (old(RowOf(k)) == None)
      ensures rows - {k} == old(rows) - {k}
    {
      process := k !in rows;
      if process {
        rows := rows[k := Row(now, Some(now))];
      }
    }

    method Release(k: Key)
      modifies this
      ensures rows == old(rows) - {k}
    {
      rows := rows - {k};
    }

    /** Claim. The first statement decides; its answer when it did nothing describes the row as the
        second statement finds it. */
    method Claim(k: Key, requested: int, now: int) returns (res: ClaimResult)
      modifies this
      ensures res.Acquired? <==> Takes(old(RowOf(k)), now, EffectiveLease(requested))
      ensures res.Acquired? ==> rows == old(rows)[k := Row(now, None)]
      ensures !res.Acquired? ==> res == Answer(RowOf(k), now, EffectiveLease(requested))
      ensures alone && !res.Acquired? ==> rows == old(rows)
    {
      var lease := if requested <= 0 then DEFAULT_CLAIM_LEASE else requested;
      var stale := now - lease;
      if k !in rows || (rows[k].completedAt == None && rows[k].processedAt < stale) {
        rows := rows[k := Row(now, None)];
        return Acquired;
      }
      Others();
      if k !in rows {
        return InProgress(SECOND);
      }
      if rows[k].completedAt != None {
        return Completed;
      }
      var retry := rows[k].processedAt + lease - now;
      if retry < SECOND {
        retry := SECOND;
      }
      res := InProgress(retry);
    }

    /** Complete. False is ErrNoClaim. */
    method Complete(k: Key, now: int) returns (ok: bool)
      modifies this
      ensures RowOf(k) == CompleteRow(old(RowOf(k)), now) && ok == InFlight(old(RowOf(k)))
      ensures rows - {k} == old(rows) - {k}
    {
      ok := k in rows && rows[k].completedAt == None;
      if ok {
        rows := rows[k := rows[k].(completedAt := Some(now))];
      }
    }
  }
}
