/**
 The transactional outbox of outbox/outbox.go: the table, the statements of ProcessNext, and the
 protocol that any number of processors run against one table.

 A history interleaves the steps of all transactions. A step may come from any processor, a
 publish may succeed or fail, and a transaction may roll back at any point, which is also what a
 crash does. Row locks are held by the open transactions, and SKIP LOCKED skips them.
 */
module Outboxes {
  import opened Common

  type Id = nat
  type Processor = nat

  datatype Row = Row(createdAt: int, processedAt: Option<int>, error: Option<string>, retryCount: nat)

  type Table = map<Id, Row>

  /** The WHERE clause of ProcessNext. */
  predicate Claimable(t: Table, cap: int, id: Id) {
    id in t && t[id].processedAt == None && t[id].retryCount < cap
  }

  /** `id` is a row that SELECT ... ORDER BY created_at LIMIT 1 FOR UPDATE SKIP LOCKED may return.
      Rows of equal age may come in any order. */
  predicate Selects(t: Table, cap: int, skip: set<Id>, id: Id) {
    && Claimable(t, cap, id) && id !in skip
    && forall o | o in t && Claimable(t, cap, o) && o !in skip :: t[id].createdAt <= t[o].createdAt
  }

  function MarkProcessed(r: Row, now: int): Row {
    r.(processedAt := Some(now))
  }

  function MarkFailed(r: Row, error: string): Row {
    r.(error := Some(error), retryCount := r.retryCount + 1)
  }

  predicate Expired(r: Row, cutoff: int) {
    r.processedAt.Some? && r.processedAt.value < cutoff
  }

  /** CleanupProcessedEvents. */
  function Cleanup(t: Table, cutoff: int): Table {
    map id | id in t && !Expired(t[id], cutoff) :: t[id]
  }

  // ----- the protocol

  /** An open transaction, by what it has done with the row it locked. */
  datatype Tx =
    | Claimed(id: Id)
    | Published(id: Id)
    | Failed(id: Id, error: string)

  datatype Outbox = Outbox(table: Table, open: map<Processor, Tx>, inserted: seq<Id>)

  const EMPTY := Outbox(map[], map[], [])

  datatype Event =
    | Insert(id: Id, createdAt: int)
    | Claim(p: Processor, cap: int, exclude: set<Id>, id: Id)
    | PublishOk(p: Processor, id: Id)
    | PublishError(p: Processor, id: Id, error: string)
    | CommitProcessed(p: Processor, id: Id, at: int)
    | CommitFailed(p: Processor, id: Id)
    | Rollback(p: Processor, id: Id, published: bool)
    | CleanUp(cutoff: int)

  function Locked(s: Outbox): set<Id> {
    set p | p in s.open :: s.open[p].id
  }

  predicate Enabled(s: Outbox, e: Event) {
    match e
    case Insert(id, _) => id !in s.inserted
    case Claim(p, cap, exclude, id) => p !in s.open && Selects(s.table, cap, exclude + Locked(s), id)
    case PublishOk(p, id) => p in s.open && s.open[p] == Claimed(id)
    case PublishError(p, id, _) => p in s.open && s.open[p] == Claimed(id)
    case CommitProcessed(p, id, _) => p in s.open && s.open[p] == Published(id) && id in s.table
    case CommitFailed(p, id) => p in s.open && s.open[p].Failed? && s.open[p].id == id && id in s.table
    case Rollback(p, id, published) => p in s.open && s.open[p].id == id && s.open[p].Published? == published
    case CleanUp(_) => true
  }

  function Step(s: Outbox, e: Event): Outbox
    requires Enabled(s, e)
  {
    match e
    case Insert(id, createdAt) =>
      s.(table := s.table[id := Row(createdAt, None, None, 0)], inserted := s.inserted + [id])
    case Claim(p, _, _, id) => s.(open := s.open[p := Claimed(id)])
    case PublishOk(p, id) => s.(open := s.open[p := Published(id)])
    case PublishError(p, id, error) => s.(open := s.open[p := Failed(id, error)])
    case CommitProcessed(p, id, at) =>
      s.(table := s.table[id := MarkProcessed(s.table[id], at)], open := s.open - {p})
    case CommitFailed(p, id) =>
      s.(table := s.table[id := MarkFailed(s.table[id], s.open[p].error)], open := s.open - {p})
    case Rollback(p, _, _) => s.(open := s.open - {p})
    case CleanUp(cutoff) => s.(table := Cleanup(s.table, cutoff))
  }

  /** A history that the database and the processors can produce, and where it leads. */
  ghost predicate Legal(h: seq<Event>)
    decreases |h|, 0
  {
    h == [] || (Legal(Front(h)) && Enabled(Run(Front(h)), Last(h)))
  }

  ghost function Run(h: seq<Event>): Outbox
    requires Legal(h)
    decreases |h|, 1
  {
    if h == [] then EMPTY else Step(Run(Front(h)), Last(h))
  }

  /** Publishes of the row that reported success. */
  function Publishes(h: seq<Event>, id: Id): nat {
    if h == [] then 0 else Publishes(Front(h), id) + Hit(Last(h).PublishOk? && Last(h).id == id)
  }

  lemma Then(h: seq<Event>, e: Event)
    requires Legal(h) && Enabled(Run(h), e)
    ensures Legal(h + [e]) && Run(h + [e]) == Step(Run(h), e)
    ensures forall id :: Publishes(h + [e], id) == Publishes(h, id) + Hit(e.PublishOk? && e.id == id)
  {
    Extend(h, e);
  }

  ghost predicate CapsAtMost(h: seq<Event>, cap: nat) {
    forall e | e in h && e.Claim? :: e.cap <= cap
  }

  // ----- counting on the history

  /** Rollbacks that came after a successful publish of the row. */
  function LostMarks(h: seq<Event>, id: Id): nat {
    if h == [] then 0 else LostMarks(Front(h), id) + Hit(Last(h).Rollback? && Last(h).id == id && Last(h).published)
  }

  function Marks(h: seq<Event>, id: Id): nat {
    if h == [] then 0 else Marks(Front(h), id) + Hit(Last(h).CommitProcessed? && Last(h).id == id)
  }

  function FailedMarks(h: seq<Event>, id: Id): nat {
    if h == [] then 0 else FailedMarks(Front(h), id) + Hit(Last(h).CommitFailed? && Last(h).id == id)
  }

  /** Publishes of the row, whatever they reported. */
  function Hands(h: seq<Event>, id: Id): nat {
    if h == [] then 0
    else Hands(Front(h), id) + Hit((Last(h).PublishOk? || Last(h).PublishError?) && Last(h).id == id)
  }

  function Rollbacks(h: seq<Event>, id: Id): nat {
    if h == [] then 0 else Rollbacks(Front(h), id) + Hit(Last(h).Rollback? && Last(h).id == id)
  }

  function Claims(h: seq<Event>, id: Id): nat {
    if h == [] then 0 else Claims(Front(h), id) + Hit(Last(h).Claim? && Last(h).id == id)
  }

  /** Committed claims of all rows. */
  function Commits(h: seq<Event>): nat {
    if h == [] then 0 else Commits(Front(h)) + Hit(Last(h).CommitProcessed? || Last(h).CommitFailed?)
  }

  /** When the history put the row into the table. */
  function InsertTime(h: seq<Event>, id: Id): Option<int> {
    if h == [] then None
    else if Last(h).Insert? && Last(h).id == id then Some(Last(h).createdAt)
    else InsertTime(Front(h), id)
  }

  /** The time of the committed mark of the row. */
  function MarkTime(h: seq<Event>, id: Id): Option<int> {
    if h == [] then None
    else if Last(h).CommitProcessed? && Last(h).id == id then Some(Last(h).at)
    else MarkTime(Front(h), id)
  }

  /** What the latest failed publish of the row said. */
  function PublishErrorOf(h: seq<Event>, id: Id): Option<string> {
    if h == [] then None
    else if Last(h).PublishError? && Last(h).id == id then Some(Last(h).error)
    else PublishErrorOf(Front(h), id)
  }

  /** What the latest failed publish said whose failure was committed. */
  function CommittedError(h: seq<Event>, id: Id): Option<string> {
    if h == [] then None
    else if Last(h).CommitFailed? && Last(h).id == id then PublishErrorOf(Front(h), id)
    else CommittedError(Front(h), id)
  }

  // ----- what every step keeps

  predicate Distinct(ids: seq<Id>) {
    forall i, j | 0 <= i < j < |ids| :: ids[i] != ids[j]
  }

  /** A row is locked by at most one transaction, and a locked row is still waiting. */
  predicate Sound(s: Outbox) {
    && Distinct(s.inserted)
    && (forall id | id in s.table :: id in s.inserted)
    && (forall p | p in s.open :: s.open[p].id in s.table && s.table[s.open[p].id].processedAt == None)
    && (forall p, q | p in s.open && q in s.open && s.open[p].id == s.open[q].id :: p == q)
  }

  /** A published row whose mark has not been committed or lost yet. */
  ghost predicate InFlight(s: Outbox, id: Id) {
    exists p :: p in s.open && s.open[p] == Published(id)
  }

  lemma SoundStep(s: Outbox, e: Event)
    requires Sound(s) && Enabled(s, e)
    ensures Sound(Step(s, e))
  {
    if e.Claim? {
      forall p | p in s.open ensures s.open[p].id != e.id {
        assert s.open[p].id in Locked(s);
      }
    }
  }

  lemma {:induction false} Exclusion(h: seq<Event>)
    requires Legal(h)
    ensures Sound(Run(h))
  {
    if h != [] {
      Exclusion(Front(h));
      SoundStep(Run(Front(h)), Last(h));
    }
  }

  /** Whether the row's outcome is final: marked processed, and perhaps cleaned up since. */
  predicate Settled(s: Outbox, id: Id) {
    id in s.inserted && (id !in s.table || s.table[id].processedAt.Some?)
  }

  lemma SettledStep(s: Outbox, e: Event, id: Id)
    requires Sound(s) && Enabled(s, e)
    ensures Hit(Settled(Step(s, e), id)) == Hit(Settled(s, id)) + Hit(e.CommitProcessed? && e.id == id)
    ensures id in Step(s, e).table && id in s.table ==>
              Step(s, e).table[id].retryCount == s.table[id].retryCount + Hit(e.CommitFailed? && e.id == id)
  {
  }

  lemma InFlightStep(s: Outbox, e: Event, id: Id)
    requires Sound(s) && Enabled(s, e)
    ensures Hit(InFlight(Step(s, e), id)) + Hit(e.CommitProcessed? && e.id == id)
              + Hit(e.Rollback? && e.id == id && e.published)
            == Hit(InFlight(s, id)) + Hit(e.PublishOk? && e.id == id)
  {
    var n := Step(s, e);
    if e.PublishOk? && e.id == id {
      assert n.open[e.p] == Published(id);
    } else if InFlight(s, id) {
      var p :| p in s.open && s.open[p] == Published(id);
      if p in n.open {
        assert n.open[p] == s.open[p];
      }
    }
  }

  lemma {:induction false} Bookkeeping(h: seq<Event>, id: Id)
    requires Legal(h)
    ensures Marks(h, id) == Hit(Settled(Run(h), id))
    ensures Publishes(h, id) == Marks(h, id) + LostMarks(h, id) + Hit(InFlight(Run(h), id))
    ensures id in Run(h).table ==> Run(h).table[id].retryCount == FailedMarks(h, id)
    ensures id !in Run(h).inserted ==> FailedMarks(h, id) == 0
  {
    if h != [] {
      var s, e := Run(Front(h)), Last(h);
      Bookkeeping(Front(h), id);
      Exclusion(Front(h));
      SettledStep(s, e, id);
      InFlightStep(s, e, id);
    }
  }

  /** The accounting law over every interleaving with crashes and database errors: each successful
      publish of a row is matched by its mark, by a lost mark, or is in flight. */
  lemma PublishesAccounted(h: seq<Event>, id: Id)
    requires Legal(h) && id in Run(h).table
    ensures Publishes(h, id) ==
            Hit(Run(h).table[id].processedAt.Some?) + LostMarks(h, id) + Hit(InFlight(Run(h), id))
    ensures Run(h).table[id].retryCount == FailedMarks(h, id)
  {
    Exclusion(h);
    Bookkeeping(h, id);
  }

  /** A processed row was published at least once, and exactly once just when no rollback came
      between one of its publishes and the mark. */
  lemma ProcessedWasPublished(h: seq<Event>, id: Id)
    requires Legal(h) && id in Run(h).table && Run(h).table[id].processedAt.Some?
    ensures Publishes(h, id) >= 1
    ensures Publishes(h, id) == 1 <==> LostMarks(h, id) == 0
  {
    Exclusion(h);
    Bookkeeping(h, id);
  }

  /** Cleanup deletes only rows that were published, and none that a transaction holds. */
  lemma CleanupIsSafe(h: seq<Event>, cutoff: int, id: Id)
    requires Legal(h) && id in Run(h).table && id !in Cleanup(Run(h).table, cutoff)
    ensures Publishes(h, id) >= 1
    ensures id !in Locked(Run(h))
  {
    Exclusion(h);
    Bookkeeping(h, id);
  }

  /** A row that is gone from the table was published at least once. */
  lemma {:induction false} GoneWasPublished(h: seq<Event>, id: Id)
    requires Legal(h) && id in Run(h).inserted && id !in Run(h).table
    ensures Publishes(h, id) >= 1
  {
    Bookkeeping(h, id);
  }

  /** A transaction that is to record a failure holds what the latest failed publish said. */
  lemma {:induction false} HoldsItsError(h: seq<Event>, p: Processor)
    requires Legal(h) && p in Run(h).open && Run(h).open[p].Failed?
    ensures PublishErrorOf(h, Run(h).open[p].id) == Some(Run(h).open[p].error)
  {
    var s, e := Run(Front(h)), Last(h);
    if !(e.PublishError? && e.p == p) {
      HoldsItsError(Front(h), p);
      Exclusion(Front(h));
    }
  }

  /** A row of the table says exactly what has happened to it: when it was inserted, when its mark was
      committed, how many failures were, and what the latest of them said. */
  lemma {:induction false} RowRemembers(h: seq<Event>, id: Id)
    requires Legal(h)
    ensures id in Run(h).table ==>
              && InsertTime(h, id) == Some(Run(h).table[id].createdAt)
              && Run(h).table[id] == Row(InsertTime(h, id).value, MarkTime(h, id), CommittedError(h, id), FailedMarks(h, id))
    ensures id !in Run(h).inserted ==> MarkTime(h, id) == None && CommittedError(h, id) == None && FailedMarks(h, id) == 0
  {
    if h != [] {
      RowRemembers(Front(h), id);
      Exclusion(Front(h));
      if Last(h).CommitFailed? {
        HoldsItsError(Front(h), Last(h).p);
      }
    }
  }

  /** A cleanup may come at any time, and deletes exactly the rows whose mark was committed with a time before
      its cutoff. */
  lemma CleanupExactly(h: seq<Event>, cutoff: int, id: Id)
    requires Legal(h)
    ensures Legal(h + [CleanUp(cutoff)])
    ensures var after := Run(h + [CleanUp(cutoff)]).table;
            && (id in after <==> id in Run(h).table && !(MarkTime(h, id).Some? && MarkTime(h, id).value < cutoff))
            && (id in after ==> after[id] == Run(h).table[id])
  {
    Then(h, CleanUp(cutoff));
    RowRemembers(h, id);
  }

  // ----- what is claimed

  /** Unmarked, failed less often than the cap, and held by nobody, as the history tells. */
  ghost predicate Due(h: seq<Event>, cap: int, id: Id)
    requires Legal(h)
  {
    && id in Run(h).table && MarkTime(h, id) == None && FailedMarks(h, id) < cap
    && forall q | q in Run(h).open :: Run(h).open[q].id != id
  }

  /** A free processor claims exactly an oldest row among those that are due and not excluded. */
  lemma ClaimsExactly(h: seq<Event>, p: Processor, cap: int, exclude: set<Id>, id: Id)
    requires Legal(h) && p !in Run(h).open
    ensures Enabled(Run(h), Claim(p, cap, exclude, id)) <==>
            && Due(h, cap, id) && id !in exclude
            && forall o | o !in exclude && Due(h, cap, o) :: Run(h).table[id].createdAt <= Run(h).table[o].createdAt
  {
    forall o ensures o in Run(h).table ==>
                       (Due(h, cap, o) <==> Claimable(Run(h).table, cap, o) && o !in Locked(Run(h)))
    {
      RowRemembers(h, o);
    }
  }

  /** So whatever has happened to a row, it can be claimed, by some exclusion list, exactly while it is due:
      a failed row is attempted again until it has failed as often as the cap allows. */
  lemma DueIsClaimed(h: seq<Event>, p: Processor, cap: int, id: Id)
    requires Legal(h) && p !in Run(h).open
    ensures (exists exclude :: Enabled(Run(h), Claim(p, cap, exclude, id))) <==> Due(h, cap, id)
  {
    var others := Run(h).table.Keys - {id};
    ClaimsExactly(h, p, cap, others, id);
    if exclude :| Enabled(Run(h), Claim(p, cap, exclude, id)) {
      ClaimsExactly(h, p, cap, exclude, id);
    }
  }

  /** One more event, and what it adds to the counts of a row. */
  lemma GoOn(h: seq<Event>, e: Event, id: Id) returns (g: seq<Event>)
    requires Legal(h) && Enabled(Run(h), e)
    ensures Legal(g) && h <= g && Run(g) == Step(Run(h), e)
    ensures Publishes(g, id) == Publishes(h, id) + Hit(e.PublishOk? && e.id == id)
    ensures FailedMarks(g, id) == FailedMarks(h, id) + Hit(e.CommitFailed? && e.id == id)
    ensures Hands(g, id) == Hands(h, id) + Hit((e.PublishOk? || e.PublishError?) && e.id == id)
    ensures !e.CommitProcessed? ==> MarkTime(g, id) == MarkTime(h, id)
  {
    g := h + [e];
    Extend(h, e);
  }

  /** A row that is inserted under a new id is due at once. */
  lemma InsertedIsDue(h: seq<Event>, cap: int, id: Id, createdAt: int)
    requires Legal(h) && id !in Run(h).inserted && cap > 0
    ensures Legal(h + [Insert(id, createdAt)]) && Due(h + [Insert(id, createdAt)], cap, id)
  {
    Then(h, Insert(id, createdAt));
    Extend(h, Insert(id, createdAt));
    RowRemembers(h, id);
    Exclusion(h);
  }

  /** Whatever a transaction has done, it may roll back, and then its row is due again. */
  lemma RollbackGivesBack(h: seq<Event>, p: Processor, cap: int)
    requires Legal(h) && p in Run(h).open && FailedMarks(h, Run(h).open[p].id) < cap
    ensures var id := Run(h).open[p].id;
            var g := h + [Rollback(p, id, Run(h).open[p].Published?)];
            Legal(g) && Due(g, cap, id)
  {
    var e := Rollback(p, Run(h).open[p].id, Run(h).open[p].Published?);
    Then(h, e);
    Extend(h, e);
    Exclusion(h);
    RowRemembers(h, e.id);
  }

  lemma NextFailure(h: seq<Event>, p: Processor, cap: int, id: Id, error: string) returns (g: seq<Event>)
    requires Legal(h) && p !in Run(h).open && Due(h, cap, id)
    ensures Legal(g) && h <= g && Publishes(g, id) == Publishes(h, id)
    ensures FailedMarks(g, id) == FailedMarks(h, id) + 1 && Hands(g, id) == Hands(h, id) + 1
    ensures id in Run(g).table && MarkTime(g, id) == None && Run(g).open == Run(h).open
  {
    DueIsClaimed(h, p, cap, id);
    var exclude :| Enabled(Run(h), Claim(p, cap, exclude, id));
    g := GoOn(h, Claim(p, cap, exclude, id), id);
    g := GoOn(g, PublishError(p, id, error), id);
    g := GoOn(g, CommitFailed(p, id), id);
    assert Run(g).open == Run(h).open;
  }

  /** A row that has used up its attempts: unprocessed, at the cap. */
  predicate Exhausted(s: Outbox, cap: nat, id: Id) {
    id in s.table && s.table[id].processedAt == None && s.table[id].retryCount >= cap
  }

  /** A row whose publishes all fail is handed over exactly as often as the cap allows: it can always fail once
      more until then, and is never claimed afterwards. */
  lemma {:induction false} FailsExactlyCapTimes(h: seq<Event>, p: Processor, cap: nat, id: Id, error: string)
    returns (g: seq<Event>)
    requires Legal(h) && p !in Run(h).open && Due(h, cap, id)
    ensures Legal(g) && h <= g && Publishes(g, id) == Publishes(h, id)
    ensures FailedMarks(g, id) == cap && Hands(g, id) - Hands(h, id) == cap - FailedMarks(h, id)
    ensures Exhausted(Run(g), cap, id) && forall q, exclude :: !Enabled(Run(g), Claim(q, cap, exclude, id))
    decreases cap - FailedMarks(h, id)
  {
    g := NextFailure(h, p, cap, id, error);
    if FailedMarks(g, id) < cap {
      g := FailsExactlyCapTimes(g, p, cap, id, error);
    } else {
      RowRemembers(g, id);
    }
  }

  lemma LockedStep(s: Outbox, e: Event, id: Id)
    requires Sound(s) && Enabled(s, e)
    ensures Hit(id in Locked(Step(s, e))) + Hit((e.CommitProcessed? || e.CommitFailed? || e.Rollback?) && e.id == id)
            == Hit(id in Locked(s)) + Hit(e.Claim? && e.id == id)
  {
    var n := Step(s, e);
    if e.Claim? || e.PublishOk? || e.PublishError? {
      assert n.open[e.p].id == e.id;
    }
    if p :| p in s.open && s.open[p].id == id {
      if p in n.open {
        assert n.open[p].id == id;
      }
      assert forall q | q in s.open && s.open[q].id == id :: q == p;
    }
  }

  /** Every claim of a row ends in its mark, in a recorded failure or in a rollback, or is still held. */
  lemma {:induction false} ClaimsAccounted(h: seq<Event>, id: Id)
    requires Legal(h)
    ensures Claims(h, id) == Marks(h, id) + FailedMarks(h, id) + Rollbacks(h, id) + Hit(id in Locked(Run(h)))
  {
    if h != [] {
      ClaimsAccounted(Front(h), id);
      Exclusion(Front(h));
      LockedStep(Run(Front(h)), Last(h), id);
    }
  }

  // ----- the retry cap

  /** Attempts the row may still consume under the cap. */
  function Budget(t: Table, cap: nat, id: Id): nat {
    if Claimable(t, cap, id) then cap - t[id].retryCount else 0
  }

  function TotalBudget(t: Table, cap: nat, ids: seq<Id>): nat {
    if ids == [] then 0 else TotalBudget(t, cap, Front(ids)) + Budget(t, cap, Last(ids))
  }

  lemma {:induction false} SameBudget(t: Table, u: Table, cap: nat, ids: seq<Id>)
    requires forall id | id in ids :: Budget(t, cap, id) == Budget(u, cap, id)
    ensures TotalBudget(t, cap, ids) == TotalBudget(u, cap, ids)
  {
    if ids != [] {
      assert Last(ids) in ids && forall id | id in Front(ids) :: id in ids;
      SameBudget(t, u, cap, Front(ids));
    }
  }

  lemma {:induction false} OneBudgetChanges(t: Table, u: Table, cap: nat, ids: seq<Id>, x: Id)
    requires Distinct(ids) && x in ids
    requires forall id | id in ids && id != x :: Budget(t, cap, id) == Budget(u, cap, id)
    ensures TotalBudget(u, cap, ids) - Budget(u, cap, x) == TotalBudget(t, cap, ids) - Budget(t, cap, x)
  {
    if Last(ids) == x {
      SameBudget(t, u, cap, Front(ids));
    } else {
      OneBudgetChanges(t, u, cap, Front(ids), x);
    }
  }

  /** A transaction open under the cap holds a row that may still be attempted. */
  predicate UnderCap(s: Outbox, cap: nat) {
    && (forall id | id in s.table :: s.table[id].retryCount + Hit(s.table[id].processedAt.Some?) <= cap)
    && (forall p | p in s.open :: Claimable(s.table, cap, s.open[p].id))
  }

  lemma UnderCapStep(s: Outbox, e: Event, cap: nat)
    requires Sound(s) && Enabled(s, e) && UnderCap(s, cap) && (e.Claim? ==> e.cap <= cap)
    ensures UnderCap(Step(s, e), cap)
  {
  }

  lemma {:induction false} RetryCap(h: seq<Event>, cap: nat)
    requires Legal(h) && CapsAtMost(h, cap)
    ensures UnderCap(Run(h), cap)
  {
    if h != [] {
      assert forall e | e in Front(h) :: e in h;
      RetryCap(Front(h), cap);
      Exclusion(Front(h));
      assert Last(h) in h;
      UnderCapStep(Run(Front(h)), Last(h), cap);
    }
  }

  /** A locked row that has been handed to the publisher. */
  ghost predicate HandedOver(s: Outbox, id: Id) {
    exists p :: p in s.open && s.open[p].id == id && !s.open[p].Claimed?
  }

  lemma HandsStep(s: Outbox, e: Event, id: Id)
    requires Sound(s) && Enabled(s, e)
    ensures Hit((e.PublishOk? || e.PublishError?) && e.id == id) + Hit(HandedOver(s, id)) <=
            Hit((e.CommitProcessed? || e.CommitFailed? || e.Rollback?) && e.id == id) + Hit(HandedOver(Step(s, e), id))
  {
    var n := Step(s, e);
    if (e.PublishOk? || e.PublishError?) && e.id == id {
      assert n.open[e.p].id == id && !n.open[e.p].Claimed?;
    } else if HandedOver(s, id) {
      var p :| p in s.open && s.open[p].id == id && !s.open[p].Claimed?;
      if p in n.open {
        assert n.open[p] == s.open[p];
      }
    }
  }

  /** Whoever ends a transaction on the row by committing held it while an attempt was left. */
  lemma AttemptsLeft(h: seq<Event>, e: Event, cap: nat, id: Id)
    requires Legal(h) && CapsAtMost(h, cap) && Enabled(Run(h), e)
    ensures (e.CommitProcessed? || e.CommitFailed?) && e.id == id ==> Marks(h, id) + FailedMarks(h, id) < cap
  {
    RetryCap(h, cap);
    Bookkeeping(h, id);
    Exclusion(h);
  }

  lemma {:induction false} HandsPaid(h: seq<Event>, cap: nat, id: Id)
    requires Legal(h) && CapsAtMost(h, cap)
    ensures Hands(h, id) <= Marks(h, id) + FailedMarks(h, id) + Rollbacks(h, id) + Hit(HandedOver(Run(h), id))
    ensures Marks(h, id) + FailedMarks(h, id) + Hit(HandedOver(Run(h), id)) <= cap
  {
    RetryCap(h, cap);
    Bookkeeping(h, id);
    Exclusion(h);
    if h != [] {
      assert forall e | e in Front(h) :: e in h;
      HandsPaid(Front(h), cap, id);
      Exclusion(Front(h));
      HandsStep(Run(Front(h)), Last(h), id);
      AttemptsLeft(Front(h), Last(h), cap, id);
    }
  }

  /** A row is handed over at most as often as the cap allows and transactions that held it rolled back. */
  lemma HandsBounded(h: seq<Event>, cap: nat, id: Id)
    requires Legal(h) && CapsAtMost(h, cap)
    ensures Hands(h, id) <= cap + Rollbacks(h, id)
  {
    HandsPaid(h, cap, id);
  }

  lemma {:induction false} FailuresLeaveTheirError(h: seq<Event>, id: Id)
    requires Legal(h) && id in Run(h).table && Run(h).table[id].retryCount > 0
    ensures Run(h).table[id].error.Some?
  {
    var s, e := Run(Front(h)), Last(h);
    if id in s.table && s.table[id].retryCount > 0 {
      FailuresLeaveTheirError(Front(h), id);
    }
  }

  lemma ExhaustedStep(s: Outbox, e: Event, cap: nat, id: Id)
    requires Sound(s) && Enabled(s, e) && (e.Claim? ==> e.cap <= cap) && Exhausted(s, cap, id) && id !in Locked(s)
    ensures id in Step(s, e).table && Step(s, e).table[id] == s.table[id] && id !in Locked(Step(s, e))
  {
    assert forall p | p in s.open :: s.open[p].id in Locked(s);
  }

  /** A row that has failed as often as the cap allows is never attempted again: in every longer history
      it is still in the table, unchanged, with its error, and nobody holds it. */
  lemma {:induction false} ExhaustedRowStays(h: seq<Event>, k: nat, cap: nat, id: Id)
    requires Legal(h) && CapsAtMost(h, cap) && cap > 0 && k <= |h| && Legal(h[..k]) && Exhausted(Run(h[..k]), cap, id)
    ensures id in Run(h).table && Run(h).table[id] == Run(h[..k]).table[id] && id !in Locked(Run(h))
    ensures Run(h).table[id].error.Some?
  {
    if k == |h| {
      assert h[..k] == h;
      FailuresLeaveTheirError(h, id);
    } else {
      assert forall e | e in Front(h) :: e in h;
      assert h[..k] == Front(h)[..k];
      ExhaustedRowStays(Front(h), k, cap, id);
      Exclusion(Front(h));
      assert Last(h) in h;
      ExhaustedStep(Run(Front(h)), Last(h), cap, id);
    }
    RetryCap(h, cap);
  }

  function OutboxBudget(s: Outbox, cap: nat): nat {
    TotalBudget(s.table, cap, s.inserted)
  }

  /** Every committed claim strictly lowers the budget; only an insert raises it, by the cap. */
  lemma BudgetStep(s: Outbox, e: Event, cap: nat)
    requires Sound(s) && Enabled(s, e) && UnderCap(s, cap)
    ensures e.CommitProcessed? || e.CommitFailed? ==> OutboxBudget(Step(s, e), cap) < OutboxBudget(s, cap)
    ensures e.Insert? ==> OutboxBudget(Step(s, e), cap) == OutboxBudget(s, cap) + cap
    ensures !e.CommitProcessed? && !e.CommitFailed? && !e.Insert? ==>
              OutboxBudget(Step(s, e), cap) == OutboxBudget(s, cap)
  {
    var n := Step(s, e);
    if e.CommitProcessed? || e.CommitFailed? {
      OneBudgetChanges(s.table, n.table, cap, s.inserted, e.id);
    } else if e.Insert? {
      Extend(s.inserted, e.id);
      SameBudget(s.table, n.table, cap, s.inserted);
    } else {
      SameBudget(s.table, n.table, cap, s.inserted);
    }
  }

  /** Marks and recorded failures of all the listed rows. */
  function EndsOf(h: seq<Event>, ids: seq<Id>): nat {
    if ids == [] then 0 else EndsOf(h, Front(ids)) + Marks(h, Last(ids)) + FailedMarks(h, Last(ids))
  }

  lemma {:induction false} EndsStep(h: seq<Event>, ids: seq<Id>)
    requires h != [] && Distinct(ids)
    ensures EndsOf(h, ids) == EndsOf(Front(h), ids)
              + Hit((Last(h).CommitProcessed? || Last(h).CommitFailed?) && Last(h).id in ids)
  {
    if ids != [] {
      EndsStep(h, Front(ids));
      FrontLast(ids);
    }
  }

  /** The committed claims are those of all rows together. */
  lemma {:induction false} CommitsOfAllRows(h: seq<Event>)
    requires Legal(h)
    ensures Commits(h) == EndsOf(h, Run(h).inserted)
  {
    Exclusion(h);
    if h != [] {
      var s, e := Run(Front(h)), Last(h);
      CommitsOfAllRows(Front(h));
      Exclusion(Front(h));
      EndsStep(h, s.inserted);
      if e.Insert? {
        Extend(s.inserted, e.id);
        Bookkeeping(h, e.id);
        Bookkeeping(Front(h), e.id);
      }
    }
  }

  lemma {:induction false} CommitsPaid(h: seq<Event>, cap: nat)
    requires Legal(h) && CapsAtMost(h, cap)
    ensures Commits(h) + OutboxBudget(Run(h), cap) <= Times(|Run(h).inserted|, cap)
  {
    if h != [] {
      assert forall e | e in Front(h) :: e in h;
      CommitsPaid(Front(h), cap);
      Exclusion(Front(h));
      RetryCap(Front(h), cap);
      BudgetStep(Run(Front(h)), Last(h), cap);
    }
  }

  /** N inserted rows allow at most N times the cap committed claims, in any history. */
  lemma CommitsBounded(h: seq<Event>, cap: nat)
    requires Legal(h) && CapsAtMost(h, cap)
    ensures Commits(h) <= |Run(h).inserted| * cap
  {
    CommitsPaid(h, cap);
    TimesIsProduct(|Run(h).inserted|, cap);
  }
}
