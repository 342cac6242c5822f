/**
 The event store of eventsourcing/postgres_store.go under optimistic concurrency.

 Append is a transaction at READ COMMITTED: one statement reads the latest committed version, then one
 statement per event inserts a row. Other transactions may run and commit between any two of them.
 The unique index on (aggregate type, aggregate id, version) refuses a row whose key is committed
 already and holds back one whose key another open transaction has inserted.
 */
module EventStores {
  import opened Common

  type Aggregate = (string, string)
  type Client = nat

  /** An event; `payload` stands for the fields that the store copies unchanged. */
  datatype DomainEvent = DomainEvent(aggregate: Aggregate, version: int, schemaVersion: int, payload: string)

  function Normal(e: DomainEvent): DomainEvent {
    if e.schemaVersion == 0 then e.(schemaVersion := 1) else e
  }

  function Normals(b: seq<DomainEvent>): (r: seq<DomainEvent>)
    ensures |r| == |b| && forall i | 0 <= i < |b| :: r[i] == Normal(b[i])
  {
    seq(|b|, i requires 0 <= i < |b| => Normal(b[i]))
  }

  /** What is stored of an event: every field as it is, and the schema version 1 where there is none. */
  predicate Keeps(row: DomainEvent, e: DomainEvent) {
    && row.aggregate == e.aggregate && row.version == e.version && row.payload == e.payload
    && row.schemaVersion == if e.schemaVersion == 0 then 1 else e.schemaVersion
  }

  predicate AllKept(rows: seq<DomainEvent>, events: seq<DomainEvent>) {
    |rows| == |events| && forall i | 0 <= i < |rows| :: Keeps(rows[i], events[i])
  }

  lemma NormalsKeep(b: seq<DomainEvent>)
    ensures AllKept(Normals(b), b)
  {
  }

  // ----- the queries

  /** The rows of one aggregate in the order they were committed. */
  function Of(rows: seq<DomainEvent>, a: Aggregate): seq<DomainEvent> {
    if rows == [] then []
    else Of(Front(rows), a) + if Last(rows).aggregate == a then [Last(rows)] else []
  }

  function MaxVersion(rows: seq<DomainEvent>): (v: int)
    requires rows != []
    ensures (exists i | 0 <= i < |rows| :: rows[i].version == v) && forall i | 0 <= i < |rows| :: rows[i].version <= v
  {
    if |rows| == 1 then rows[0].version else Max(MaxVersion(Front(rows)), Last(rows).version)
  }

  /** SELECT COALESCE(MAX(version), 0). */
  function Latest(rows: seq<DomainEvent>, a: Aggregate): int {
    if Of(rows, a) == [] then 0 else MaxVersion(Of(rows, a))
  }

  function FromVersion(rows: seq<DomainEvent>, from: int): seq<DomainEvent> {
    if rows == [] then []
    else FromVersion(Front(rows), from) + if Last(rows).version >= from then [Last(rows)] else []
  }

  predicate Sorted(rows: seq<DomainEvent>) {
    forall i, j | 0 <= i < j < |rows| :: rows[i].version <= rows[j].version
  }

  /** A result that LoadFrom's query may return: the matching rows, in ascending version order. */
  predicate Loaded(rows: seq<DomainEvent>, a: Aggregate, from: int, out: seq<DomainEvent>) {
    Sorted(out) && multiset(out) == multiset(FromVersion(Of(rows, a), from))
  }

  // ----- the protocol

  datatype Tx =
    | Begun(batch: seq<DomainEvent>, expected: int)
    | Inserting(batch: seq<DomainEvent>, expected: int, done: nat)

  datatype Snapshot = Snapshot(version: nat, data: string)

  datatype Store = Store(rows: seq<DomainEvent>, open: map<Client, Tx>, snapshots: map<Aggregate, Snapshot>)

  const EMPTY := Store([], map[], map[])

  datatype Event =
    | Begin(c: Client, batch: seq<DomainEvent>, expected: int)
    | ReadVersion(c: Client)
    | Insert(c: Client)
    | Commit(c: Client, batch: seq<DomainEvent>, expected: int)
    | Abort(c: Client)
    | SaveSnapshot(a: Aggregate, s: Snapshot)
    | DeleteSnapshot(a: Aggregate, before: int)

  predicate SameKey(d: DomainEvent, e: DomainEvent) {
    d.aggregate == e.aggregate && d.version == e.version
  }

  /** The transaction has inserted a row with the key of `e`. */
  predicate HasInserted(t: Tx, e: DomainEvent) {
    t.Inserting? && exists i | 0 <= i < t.done && i < |t.batch| :: SameKey(t.batch[i], e)
  }

  /** The unique index lets the row in. */
  predicate IndexAllows(s: Store, e: DomainEvent) {
    && (forall i | 0 <= i < |s.rows| :: !SameKey(s.rows[i], e))
    && (forall c | c in s.open :: !HasInserted(s.open[c], e))
  }

  /** `unique` tells whether the table has the unique index. */
  predicate Enabled(s: Store, e: Event, unique: bool) {
    match e
    case Begin(c, batch, _) => c !in s.open && batch != []
    case ReadVersion(c) =>
      c in s.open && s.open[c].Begun? && s.open[c].batch != [] &&
      Latest(s.rows, s.open[c].batch[0].aggregate) == s.open[c].expected
    case Insert(c) =>
      c in s.open && s.open[c].Inserting? && s.open[c].done < |s.open[c].batch| &&
      (unique ==> IndexAllows(s, s.open[c].batch[s.open[c].done]))
    case Commit(c, batch, expected) => c in s.open && s.open[c] == Inserting(batch, expected, |batch|)
    case Abort(c) => c in s.open
    case SaveSnapshot(_, _) => true
    case DeleteSnapshot(_, _) => true
  }

  /** DELETE of the aggregate's snapshot when its version is below `before`. */
  function Pruned(snapshots: map<Aggregate, Snapshot>, a: Aggregate, before: int): map<Aggregate, Snapshot> {
    if a in snapshots && snapshots[a].version < before then snapshots - {a} else snapshots
  }

  function Step(s: Store, e: Event, unique: bool): Store
    requires Enabled(s, e, unique)
  {
    match e
    case Begin(c, batch, expected) => s.(open := s.open[c := Begun(batch, expected)])
    case ReadVersion(c) => s.(open := s.open[c := Inserting(s.open[c].batch, s.open[c].expected, 0)])
    case Insert(c) => s.(open := s.open[c := s.open[c].(done := s.open[c].done + 1)])
    case Commit(c, batch, _) => s.(rows := s.rows + Normals(batch), open := s.open - {c})
    case Abort(c) => s.(open := s.open - {c})
    case SaveSnapshot(a, snapshot) => s.(snapshots := s.snapshots[a := snapshot])
    case DeleteSnapshot(a, before) => s.(snapshots := Pruned(s.snapshots, a, before))
  }

  ghost predicate Legal(h: seq<Event>, unique: bool)
    decreases |h|, 0
  {
    h == [] || (Legal(Front(h), unique) && Enabled(Run(Front(h), unique), Last(h), unique))
  }

  ghost function Run(h: seq<Event>, unique: bool): Store
    requires Legal(h, unique)
    decreases |h|, 1
  {
    if h == [] then EMPTY else Step(Run(Front(h), unique), Last(h), unique)
  }

  /** Versions count up from the one after `version`. */
  predicate NumberedFrom(rows: seq<DomainEvent>, version: int) {
    forall i | 0 <= i < |rows| :: rows[i].version == version + 1 + i
  }

  /** The version before the batch's first event of the aggregate. */
  function Base(batch: seq<DomainEvent>, a: Aggregate): int {
    if Of(batch, a) == [] then 0 else Of(batch, a)[0].version - 1
  }

  /** How callers must number a batch's events of the aggregate: upwards, from the expected version for the
      aggregate of the first event, which Append checks, and for any other from a version no later than the
      latest when the append began. */
  predicate WellNumbered(rows: seq<DomainEvent>, batch: seq<DomainEvent>, expected: int, a: Aggregate) {
    Of(batch, a) != [] ==>
      && NumberedFrom(Of(batch, a), Base(batch, a))
      && if batch[0].aggregate == a then Base(batch, a) == expected else 0 <= Base(batch, a) <= Latest(rows, a)
  }

  ghost predicate AllWellNumbered(h: seq<Event>, unique: bool, a: Aggregate)
    requires Legal(h, unique)
  {
    h == [] ||
    (AllWellNumbered(Front(h), unique, a) &&
     (Last(h).Begin? ==> WellNumbered(Run(Front(h), unique).rows, Last(h).batch, Last(h).expected, a)))
  }

  lemma Then(h: seq<Event>, e: Event, unique: bool)
    requires Legal(h, unique) && Enabled(Run(h, unique), e, unique)
    ensures Legal(h + [e], unique) && Run(h + [e], unique) == Step(Run(h, unique), e, unique)
  {
    Extend(h, e);
  }

  lemma GoOn(h: seq<Event>, e: Event, unique: bool, a: Aggregate) returns (n: seq<Event>)
    requires Legal(h, unique) && Enabled(Run(h, unique), e, unique) && AllWellNumbered(h, unique, a)
    requires e.Begin? ==> WellNumbered(Run(h, unique).rows, e.batch, e.expected, a)
    ensures Legal(n, unique) && Run(n, unique) == Step(Run(h, unique), e, unique) && AllWellNumbered(n, unique, a)
  {
    Then(h, e, unique);
    Extend(h, e);
    n := h + [e];
  }

  // ----- what every step keeps

  /** The versions of the aggregate are exactly 1, 2, ..., in commit order. */
  predicate Numbered(rows: seq<DomainEvent>, a: Aggregate) {
    forall i | 0 <= i < |Of(rows, a)| :: Of(rows, a)[i].version == i + 1
  }

  lemma {:induction false} OfAppend(rows: seq<DomainEvent>, more: seq<DomainEvent>, a: Aggregate)
    ensures Of(rows + more, a) == Of(rows, a) + Of(more, a)
  {
    if more == [] {
      assert rows + more == rows;
    } else {
      OfAppend(rows, Front(more), a);
      assert Front(rows + more) == rows + Front(more);
    }
  }

  lemma {:induction false} OfOne(rows: seq<DomainEvent>, a: Aggregate)
    ensures (forall i | 0 <= i < |rows| :: rows[i].aggregate == a) ==> Of(rows, a) == rows
    ensures (forall i | 0 <= i < |rows| :: rows[i].aggregate != a) ==> Of(rows, a) == []
  {
    if rows != [] {
      OfOne(Front(rows), a);
      assert rows == Front(rows) + [Last(rows)];
    }
  }

  lemma {:induction false} OfMembers(rows: seq<DomainEvent>, a: Aggregate, e: DomainEvent)
    ensures e in Of(rows, a) <==> e in rows && e.aggregate == a
  {
    if rows != [] {
      OfMembers(Front(rows), a, e);
      assert rows == Front(rows) + [Last(rows)];
    }
  }

  lemma LatestIsLength(rows: seq<DomainEvent>, a: Aggregate)
    requires Numbered(rows, a)
    ensures Latest(rows, a) == |Of(rows, a)|
  {
    if Of(rows, a) != [] {
      assert Of(rows, a)[|Of(rows, a)| - 1].version == |Of(rows, a)|;
    }
  }

  lemma NumberedConcat(mine: seq<DomainEvent>, more: seq<DomainEvent>)
    requires forall i | 0 <= i < |mine| :: mine[i].version == i + 1
    ensures (forall i | 0 <= i < |mine + more| :: (mine + more)[i].version == i + 1) <==>
            (forall i | 0 <= i < |more| :: more[i].version == |mine| + 1 + i)
  {
    var all := mine + more;
    if forall i | 0 <= i < |all| :: all[i].version == i + 1 {
      forall i | 0 <= i < |more| ensures more[i].version == |mine| + 1 + i {
        assert all[|mine| + i] == more[i];
      }
    }
  }

  lemma {:induction false} OfNormals(batch: seq<DomainEvent>, a: Aggregate)
    ensures Of(Normals(batch), a) == Normals(Of(batch, a))
  {
    if batch != [] {
      OfNormals(Front(batch), a);
      assert Front(Normals(batch)) == Normals(Front(batch));
    }
  }

  /** A list up to its k-th event has the first event of an aggregate, if any. */
  lemma FirstStays(batch: seq<DomainEvent>, k: nat, a: Aggregate)
    requires k <= |batch|
    ensures Of(batch[..k], a) <= Of(batch, a)
  {
    assert batch == batch[..k] + batch[k..];
    OfAppend(batch[..k], batch[k..], a);
  }

  lemma OfNext(batch: seq<DomainEvent>, k: nat, a: Aggregate)
    requires k < |batch|
    ensures Of(batch[..k + 1], a) == Of(batch[..k], a) + if batch[k].aggregate == a then [batch[k]] else []
  {
    assert Front(batch[..k + 1]) == batch[..k];
  }

  /** The transaction has inserted into the aggregate. */
  predicate Touches(t: Tx, a: Aggregate) {
    t.Inserting? && t.done <= |t.batch| && Of(t.batch[..t.done], a) != []
  }

  /** How an open transaction stands to the committed rows of the aggregate. */
  predicate Fits(rows: seq<DomainEvent>, t: Tx, a: Aggregate) {
    && t.batch != [] && (t.Inserting? ==> t.done <= |t.batch|)
    && (Of(t.batch, a) != [] ==>
          && NumberedFrom(Of(t.batch, a), Base(t.batch, a))
          && (t.batch[0].aggregate == a ==> Base(t.batch, a) == t.expected)
          && (t.Inserting? || t.batch[0].aggregate != a ==> 0 <= Base(t.batch, a) <= |Of(rows, a)|)
          && (Touches(t, a) ==> Base(t.batch, a) == |Of(rows, a)|))
  }

  /** The aggregate is numbered, and at most one open transaction has inserted into it. */
  predicate Sound(s: Store, a: Aggregate) {
    && Numbered(s.rows, a)
    && (forall c | c in s.open :: Fits(s.rows, s.open[c], a))
    && (forall c, d | c in s.open && d in s.open && Touches(s.open[c], a) && Touches(s.open[d], a) :: c == d)
  }

  lemma TouchesFirst(t: Tx, a: Aggregate) returns (i: nat)
    requires Touches(t, a)
    ensures i < t.done && Of(t.batch, a) != [] && t.batch[i] == Of(t.batch, a)[0] && t.batch[i].aggregate == a
  {
    FirstStays(t.batch, t.done, a);
    var e := Of(t.batch[..t.done], a)[0];
    OfMembers(t.batch[..t.done], a, e);
    i :| 0 <= i < t.done && t.batch[..t.done][i] == e;
  }

  /** Whoever has inserted into the aggregate has inserted its next version. */
  lemma TouchedNext(rows: seq<DomainEvent>, t: Tx, e: DomainEvent, a: Aggregate)
    requires Fits(rows, t, a) && Touches(t, a) && e.aggregate == a && e.version == |Of(rows, a)| + 1
    ensures HasInserted(t, e)
  {
    var i := TouchesFirst(t, a);
    assert SameKey(t.batch[i], e);
  }

  /** A transaction's first insert into an aggregate goes through only while its version is still the next
      one there and nobody else is inserting into it. */
  lemma FirstInsert(s: Store, c: Client, a: Aggregate)
    requires Sound(s, a) && Enabled(s, Insert(c), true) && s.open[c].batch[s.open[c].done].aggregate == a
    requires !Touches(s.open[c], a)
    ensures Of(s.open[c].batch, a) != [] && |Of(s.rows, a)| == Base(s.open[c].batch, a)
    ensures forall d | d in s.open :: !Touches(s.open[d], a)
  {
    var t, mine := s.open[c], Of(s.rows, a);
    var e := t.batch[t.done];
    OfNext(t.batch, t.done, a);
    FirstStays(t.batch, t.done + 1, a);
    assert Of(t.batch, a)[0] == Of(t.batch[..t.done + 1], a)[0] == e;
    var base := Base(t.batch, a);
    assert Fits(s.rows, t, a);
    if |mine| > base {
      OfMembers(s.rows, a, mine[base]);
      assert false;
    }
    forall d | d in s.open ensures !Touches(s.open[d], a) {
      if Touches(s.open[d], a) {
        TouchedNext(s.rows, s.open[d], e, a);
      }
    }
  }

  /** What a commit does to every aggregate. */
  lemma CommitExtends(rows: seq<DomainEvent>, batch: seq<DomainEvent>, a: Aggregate)
    ensures Of(rows + Normals(batch), a) == Of(rows, a) + Normals(Of(batch, a))
  {
    OfAppend(rows, Normals(batch), a);
    OfNormals(batch, a);
  }

  lemma CommitSound(s: Store, e: Event, a: Aggregate)
    requires Sound(s, a) && e.Commit? && Enabled(s, e, true)
    ensures Sound(Step(s, e, true), a)
  {
    var n, t := Step(s, e, true), s.open[e.c];
    assert Fits(s.rows, t, a) && t.batch[..t.done] == t.batch;
    CommitExtends(s.rows, e.batch, a);
    NumberedConcat(Of(s.rows, a), Normals(Of(e.batch, a)));
    forall c | c in n.open ensures Fits(n.rows, n.open[c], a) {
      assert Fits(s.rows, s.open[c], a);
    }
  }

  lemma BeginFits(rows: seq<DomainEvent>, batch: seq<DomainEvent>, expected: int, a: Aggregate)
    requires Numbered(rows, a) && batch != [] && WellNumbered(rows, batch, expected, a)
    ensures Fits(rows, Begun(batch, expected), a)
  {
    LatestIsLength(rows, a);
  }

  lemma ReadFits(rows: seq<DomainEvent>, t: Tx, a: Aggregate)
    requires Numbered(rows, a) && Fits(rows, t, a) && t.Begun? && Latest(rows, t.batch[0].aggregate) == t.expected
    ensures Fits(rows, Inserting(t.batch, t.expected, 0), a) && !Touches(Inserting(t.batch, t.expected, 0), a)
  {
    LatestIsLength(rows, a);
    assert Of(t.batch[..0], a) == [];
  }

  lemma InsertFits(rows: seq<DomainEvent>, t: Tx, a: Aggregate)
    requires Fits(rows, t, a) && t.Inserting? && t.done < |t.batch|
    requires t.batch[t.done].aggregate == a && !Touches(t, a) ==> |Of(rows, a)| == Base(t.batch, a)
    ensures Fits(rows, t.(done := t.done + 1), a)
    ensures Touches(t.(done := t.done + 1), a) <==> Touches(t, a) || t.batch[t.done].aggregate == a
  {
    OfNext(t.batch, t.done, a);
  }

  /** One transaction moves on, into the aggregate only when nobody else is there. */
  lemma MoveSound(s: Store, n: Store, c: Client, a: Aggregate)
    requires Sound(s, a) && n.rows == s.rows && c in n.open && n.open == s.open[c := n.open[c]]
    requires Fits(s.rows, n.open[c], a)
    requires Touches(n.open[c], a) ==> (c in s.open && Touches(s.open[c], a)) || forall d | d in s.open :: !Touches(s.open[d], a)
    ensures Sound(n, a)
  {
  }

  lemma InsertSound(s: Store, e: Event, a: Aggregate)
    requires Sound(s, a) && e.Insert? && Enabled(s, e, true)
    ensures Sound(Step(s, e, true), a)
  {
    var t := s.open[e.c];
    if t.batch[t.done].aggregate == a && !Touches(t, a) {
      FirstInsert(s, e.c, a);
    }
    InsertFits(s.rows, t, a);
    MoveSound(s, Step(s, e, true), e.c, a);
  }

  lemma SoundStep(s: Store, e: Event, a: Aggregate)
    requires Sound(s, a) && Enabled(s, e, true)
    requires e.Begin? ==> WellNumbered(s.rows, e.batch, e.expected, a)
    ensures Sound(Step(s, e, true), a)
  {
    match e
    case Begin(c, batch, expected) =>
      BeginFits(s.rows, batch, expected, a);
      MoveSound(s, Step(s, e, true), c, a);
    case ReadVersion(c) =>
      ReadFits(s.rows, s.open[c], a);
      MoveSound(s, Step(s, e, true), c, a);
    case Insert(_) => InsertSound(s, e, a);
    case Commit(_, _, _) => CommitSound(s, e, a);
    case _ =>
  }

  lemma {:induction false} AlwaysSound(h: seq<Event>, a: Aggregate)
    requires Legal(h, true) && AllWellNumbered(h, true, a)
    ensures Sound(Run(h, true), a)
  {
    if h != [] {
      AlwaysSound(Front(h), a);
      SoundStep(Run(Front(h), true), Last(h), a);
    }
  }

  // ----- what the history says is stored

  /** What the event commits to the aggregate. */
  function CommittedBy(e: Event, a: Aggregate): seq<DomainEvent> {
    match e
    case Commit(_, batch, _) => Normals(Of(batch, a))
    case _ => []
  }

  /** The committed batches of the aggregate, whole and in commit order. */
  function Committed(h: seq<Event>, a: Aggregate): seq<DomainEvent> {
    if h == [] then [] else Committed(Front(h), a) + CommittedBy(Last(h), a)
  }

  lemma {:induction false} CommittedRows(h: seq<Event>, unique: bool, a: Aggregate)
    requires Legal(h, unique)
    ensures Of(Run(h, unique).rows, a) == Committed(h, a)
  {
    if h != [] {
      CommittedRows(Front(h), unique, a);
      if Last(h).Commit? {
        CommitExtends(Run(Front(h), unique).rows, Last(h).batch, a);
      }
    }
  }

  /** All or nothing, in every interleaving: the aggregate's rows are its events of the committed batches,
      whole and in commit order; and with the unique index, when callers number the aggregate well, their
      versions are exactly 1..latest. */
  lemma RowsAreCommittedBatches(h: seq<Event>, unique: bool, a: Aggregate)
    requires Legal(h, unique)
    ensures Of(Run(h, unique).rows, a) == Committed(h, a)
    ensures unique && AllWellNumbered(h, unique, a) ==>
              Numbered(Run(h, unique).rows, a) && Latest(Run(h, unique).rows, a) == |Committed(h, a)|
  {
    CommittedRows(h, unique, a);
    if unique && AllWellNumbered(h, unique, a) {
      AlwaysSound(h, a);
      LatestIsLength(Run(h, unique).rows, a);
    }
  }

  /** A commit can only be of a batch that follows the committed events of each of its aggregates directly. */
  lemma CommitIsNext(h: seq<Event>, e: Event, a: Aggregate)
    requires Legal(h, true) && AllWellNumbered(h, true, a) && e.Commit? && Enabled(Run(h, true), e, true)
    ensures Of(e.batch, a) != [] ==> NumberedFrom(Of(e.batch, a), |Committed(h, a)|)
    ensures e.batch != [] && (e.batch[0].aggregate == a && Of(e.batch, a) != [] ==> e.expected == |Committed(h, a)|)
  {
    AlwaysSound(h, a);
    var t := Run(h, true).open[e.c];
    assert Fits(Run(h, true).rows, t, a) && t.batch[..t.done] == t.batch;
    RowsAreCommittedBatches(h, true, a);
  }

  lemma {:induction false} LegalPrefix(h: seq<Event>, k: nat, a: Aggregate)
    requires Legal(h, true) && AllWellNumbered(h, true, a) && k <= |h|
    ensures Legal(h[..k], true) && AllWellNumbered(h[..k], true, a)
    ensures k < |h| ==> Enabled(Run(h[..k], true), h[k], true)
  {
    if k == |h| {
      assert h[..k] == h;
    } else {
      LegalPrefix(Front(h), k, a);
      assert h[..k] == Front(h)[..k];
      if k == |h| - 1 {
        assert h[..k] == Front(h);
      }
    }
  }

  /** An open transaction may end without a trace at any time. */
  lemma AbortLeavesNothing(h: seq<Event>, unique: bool, c: Client)
    requires Legal(h, unique) && c in Run(h, unique).open
    ensures Legal(h + [Abort(c)], unique)
    ensures Run(h + [Abort(c)], unique).rows == Run(h, unique).rows && c !in Run(h + [Abort(c)], unique).open
  {
    Then(h, Abort(c), unique);
  }

  lemma {:induction false} CommittedGrows(h: seq<Event>, k: nat, a: Aggregate)
    requires k <= |h|
    ensures Committed(h[..k], a) <= Committed(h, a)
  {
    if k == |h| {
      assert h[..k] == h;
    } else {
      CommittedGrows(Front(h), k, a);
      assert h[..k] == Front(h)[..k];
    }
  }

  /** What event `i` committed is still part of what is committed before event `j`. */
  lemma StillCommitted(h: seq<Event>, i: nat, j: nat, a: Aggregate)
    requires i < j <= |h|
    ensures |Committed(h[..j], a)| >= |Committed(h[..i], a)| + |CommittedBy(h[i], a)|
  {
    var p := h[..j];
    CommittedGrows(p, i + 1, a);
    assert p[..i + 1] == h[..i + 1] && Front(h[..i + 1]) == h[..i] && Last(h[..i + 1]) == h[i];
  }

  /** Of any number of racing appends, committed batches never share a version of an aggregate: each starts
      at or after the end of every earlier one. */
  lemma OneBatchPerVersion(h: seq<Event>, i: nat, j: nat, a: Aggregate)
    requires Legal(h, true) && AllWellNumbered(h, true, a) && i < j < |h| && h[i].Commit? && h[j].Commit?
    ensures Of(h[i].batch, a) != [] && Of(h[j].batch, a) != [] ==>
              Base(h[j].batch, a) >= Base(h[i].batch, a) + |Of(h[i].batch, a)|
  {
    LegalPrefix(h, i, a);
    LegalPrefix(h, j, a);
    CommitIsNext(h[..i], h[i], a);
    CommitIsNext(h[..j], h[j], a);
    StillCommitted(h, i, j, a);
  }

  /** Storing a batch, which may span aggregates, keeps the versions 1..latest of an aggregate if and only
      if the batch numbers its events of that aggregate right after them. The store checks the latest
      version of the first event's aggregate only, so the numbering is the caller's duty. */
  lemma NumberingIsUpToCallers(rows: seq<DomainEvent>, batch: seq<DomainEvent>, a: Aggregate)
    requires Numbered(rows, a)
    ensures Numbered(rows + Normals(batch), a) <==> NumberedFrom(Of(batch, a), Latest(rows, a))
  {
    OfAppend(rows, Normals(batch), a);
    OfNormals(batch, a);
    LatestIsLength(rows, a);
    NumberedConcat(Of(rows, a), Normals(Of(batch, a)));
  }

  lemma BothRead(x: seq<DomainEvent>, y: seq<DomainEvent>, a: Aggregate) returns (h: seq<Event>)
    requires |x| == |y| == 1 && WellNumbered([], x, 0, a) && WellNumbered([], y, 0, a)
    ensures Legal(h, false) && AllWellNumbered(h, false, a)
    ensures Run(h, false) == Store([], map[1 := Inserting(x, 0, 0), 2 := Inserting(y, 0, 0)], map[])
  {
    h := GoOn([], Begin(1, x, 0), false, a);
    h := GoOn(h, Begin(2, y, 0), false, a);
    assert Run(h, false) == Store([], map[1 := Begun(x, 0), 2 := Begun(y, 0)], map[]);
    h := GoOn(h, ReadVersion(1), false, a);
    h := GoOn(h, ReadVersion(2), false, a);
  }

  /** Two appends that expect the same version have both inserted, which only a missing index allows. */
  lemma BothInsert(x: seq<DomainEvent>, y: seq<DomainEvent>, a: Aggregate) returns (h: seq<Event>)
    requires |x| == |y| == 1 && WellNumbered([], x, 0, a) && WellNumbered([], y, 0, a)
    ensures Legal(h, false) && AllWellNumbered(h, false, a)
    ensures Run(h, false) == Store([], map[1 := Inserting(x, 0, 1), 2 := Inserting(y, 0, 1)], map[])
  {
    h := BothRead(x, y, a);
    h := GoOn(h, Insert(1), false, a);
    h := GoOn(h, Insert(2), false, a);
  }

  lemma TwiceTheSameVersion(rows: seq<DomainEvent>, a: Aggregate)
    requires |rows| == 2 && rows[0].aggregate == rows[1].aggregate == a && rows[1].version == 1
    ensures !Numbered(rows, a)
  {
    OfOne(rows, a);
    assert Of(rows, a)[1].version == 1;
  }

  /** Without the unique index, as AutoMigrate creates the table, two racing appends that expect the
      same version both commit. */
  lemma WithoutIndexBothCommit() returns (h: seq<Event>, a: Aggregate)
    ensures Legal(h, false) && AllWellNumbered(h, false, a) && !Numbered(Run(h, false).rows, a)
  {
    a := ("order", "7");
    var x, y := [DomainEvent(a, 1, 1, "x")], [DomainEvent(a, 1, 1, "y")];
    OfOne(x, a);
    OfOne(y, a);
    h := BothInsert(x, y, a);
    h := GoOn(h, Commit(1, x, 0), false, a);
    h := GoOn(h, Commit(2, y, 0), false, a);
    TwiceTheSameVersion(Run(h, false).rows, a);
  }

  // ----- reading back

  /** Where version `from` starts in a list numbered 1, 2, ... */
  function Start(f: seq<DomainEvent>, from: int): (k: nat)
    ensures k <= |f|
  {
    if from <= 1 then 0 else Min(from - 1, |f|)
  }

  lemma {:induction false} FromNumbered(f: seq<DomainEvent>, from: int)
    requires forall i | 0 <= i < |f| :: f[i].version == i + 1
    ensures FromVersion(f, from) == f[Start(f, from)..]
  {
    if f != [] {
      var p, k := Front(f), Start(f, from);
      FromNumbered(p, from);
      assert Last(f).version == |f|;
      if Last(f).version >= from {
        assert k == Start(p, from) && f[k..] == p[k..] + [Last(f)];
      } else {
        assert k == |f| && Start(p, from) == |p|;
      }
    }
  }

  predicate StrictlySorted(rows: seq<DomainEvent>) {
    forall i, j | 0 <= i < j < |rows| :: rows[i].version < rows[j].version
  }

  lemma MultisetFront(a: seq<DomainEvent>)
    requires a != []
    ensures multiset(Front(a)) == multiset(a) - multiset{Last(a)}
  {
    assert a == Front(a) + [Last(a)];
  }

  lemma SameLast(a: seq<DomainEvent>, b: seq<DomainEvent>)
    requires a != [] && b != [] && Sorted(a) && StrictlySorted(b)
    requires Last(a) in b && Last(b) in a
    ensures Last(a) == Last(b)
  {
    var i :| 0 <= i < |b| && b[i] == Last(a);
    var j :| 0 <= j < |a| && a[j] == Last(b);
    assert b[i].version <= b[|b| - 1].version && a[j].version <= a[|a| - 1].version;
  }

  lemma {:induction false} SortedIsUnique(a: seq<DomainEvent>, b: seq<DomainEvent>)
    requires multiset(a) == multiset(b) && Sorted(a) && StrictlySorted(b)
    ensures a == b
    decreases |a|
  {
    assert |a| == |multiset(a)| && |b| == |multiset(b)|;
    if a != [] {
      assert Last(a) in multiset(b) && Last(b) in multiset(a);
      SameLast(a, b);
      MultisetFront(a);
      MultisetFront(b);
      SortedIsUnique(Front(a), Front(b));
      FrontLast(a);
      FrontLast(b);
    }
  }

  lemma TailSorted(f: seq<DomainEvent>, k: nat)
    requires k <= |f| && forall i | 0 <= i < |f| :: f[i].version == i + 1
    ensures StrictlySorted(f[k..])
  {
  }

  lemma LoadOfNumbered(f: seq<DomainEvent>, from: int, out: seq<DomainEvent>)
    requires forall i | 0 <= i < |f| :: f[i].version == i + 1
    requires Sorted(out) && multiset(out) == multiset(FromVersion(f, from))
    ensures out == f[Start(f, from)..]
  {
    FromNumbered(f, from);
    TailSorted(f, Start(f, from));
    SortedIsUnique(out, f[Start(f, from)..]);
  }

  /** Whatever the query returns is the concatenation of the committed batches, from the asked version. */
  lemma LoadIsCommitted(h: seq<Event>, a: Aggregate, from: int, out: seq<DomainEvent>)
    requires Legal(h, true) && AllWellNumbered(h, true, a) && Loaded(Run(h, true).rows, a, from, out)
    ensures out == Committed(h, a)[Start(Committed(h, a), from)..]
    ensures from <= 1 ==> out == Committed(h, a)
  {
    RowsAreCommittedBatches(h, true, a);
    var f := Committed(h, a);
    LoadOfNumbered(f, from, out);
  }

  /** The events of the aggregate in the committed batches, as their callers gave them. */
  function Given(h: seq<Event>, a: Aggregate): seq<DomainEvent> {
    if h == [] then [] else Given(Front(h), a) + if Last(h).Commit? then Of(Last(h).batch, a) else []
  }

  lemma {:induction false} CommittedKeepsGiven(h: seq<Event>, a: Aggregate)
    ensures AllKept(Committed(h, a), Given(h, a))
  {
    if h != [] {
      CommittedKeepsGiven(Front(h), a);
    }
  }

  /** Nothing of an event is lost: in every reachable state, what a load gives of the rows that its query
      returns are the appended events of the aggregate, from the asked version, with all their fields. */
  lemma LoadGivesBack(h: seq<Event>, a: Aggregate, from: int, out: seq<DomainEvent>, loaded: seq<DomainEvent>)
    requires Legal(h, true) && AllWellNumbered(h, true, a)
    requires Loaded(Run(h, true).rows, a, from, out) && AllKept(loaded, out)
    ensures AllKept(loaded, Given(h, a)[Start(Given(h, a), from)..])
  {
    LoadIsCommitted(h, a, from, out);
    CommittedKeepsGiven(h, a);
  }

  lemma {:induction false} OfKept(stored: seq<DomainEvent>, events: seq<DomainEvent>, a: Aggregate)
    requires AllKept(stored, events)
    ensures AllKept(Of(stored, a), Of(events, a))
  {
    if stored != [] {
      OfKept(Front(stored), Front(events), a);
    }
  }

  lemma TailOfNumbered(mine: seq<DomainEvent>, more: seq<DomainEvent>, out: seq<DomainEvent>)
    requires forall i | 0 <= i < |mine| :: mine[i].version == i + 1
    requires NumberedFrom(more, |mine|)
    requires Sorted(out) && multiset(out) == multiset(FromVersion(mine + more, |mine| + 1))
    ensures out == more
  {
    NumberedConcat(mine, more);
    LoadOfNumbered(mine + more, |mine| + 1, out);
    assert (mine + more)[|mine|..] == more;
  }

  /** So a load right after an append gives the batch's events of the aggregate back. */
  lemma AppendThenLoad(rows: seq<DomainEvent>, stored: seq<DomainEvent>, events: seq<DomainEvent>, a: Aggregate,
                       out: seq<DomainEvent>, loaded: seq<DomainEvent>)
    requires Numbered(rows, a) && NumberedFrom(Of(events, a), Latest(rows, a)) && AllKept(stored, events)
    requires Loaded(rows + stored, a, Latest(rows, a) + 1, out) && AllKept(loaded, out)
    ensures AllKept(loaded, Of(events, a))
  {
    OfAppend(rows, stored, a);
    OfKept(stored, events, a);
    LatestIsLength(rows, a);
    TailOfNumbered(Of(rows, a), Of(stored, a), out);
  }

  // ----- snapshots

  type Folder = (string, DomainEvent) -> string

  function Fold(f: Folder, start: string, events: seq<DomainEvent>): string {
    if events == [] then start else f(Fold(f, start, Front(events)), Last(events))
  }

  lemma {:induction false} FoldSplits(f: Folder, start: string, a: seq<DomainEvent>, b: seq<DomainEvent>)
    ensures Fold(f, start, a + b) == Fold(f, Fold(f, start, a), b)
  {
    if b == [] {
      assert a + b == a;
    } else {
      FoldSplits(f, start, a, Front(b));
      assert Front(a + b) == a + Front(b) && Last(a + b) == Last(b);
    }
  }

  /** The snapshot holds the fold of the first `version` events. */
  predicate Faithful(f: Folder, start: string, events: seq<DomainEvent>, s: Snapshot) {
    s.version <= |events| && s.data == Fold(f, start, events[..s.version])
  }

  /** Every saved snapshot was faithful when it was saved, perhaps of an older version. */
  ghost predicate FaithfulSaves(h: seq<Event>, f: Folder, start: string) {
    h == [] || (FaithfulSaves(Front(h), f, start) &&
                (Last(h).SaveSnapshot? ==> Faithful(f, start, Committed(Front(h), Last(h).a), Last(h).s)))
  }

  lemma SamePrefix(a: seq<DomainEvent>, b: seq<DomainEvent>, k: nat)
    requires a <= b && k <= |a|
    ensures a[..k] == b[..k]
  {
  }

  lemma {:induction false} SnapshotsStayFaithful(h: seq<Event>, f: Folder, start: string, a: Aggregate)
    requires Legal(h, true) && FaithfulSaves(h, f, start) && a in Run(h, true).snapshots
    ensures Faithful(f, start, Committed(h, a), Run(h, true).snapshots[a])
  {
    var p, e := Front(h), Last(h);
    var s := Run(h, true).snapshots[a];
    if !(e.SaveSnapshot? && e.a == a) {
      SnapshotsStayFaithful(p, f, start, a);
    }
    SamePrefix(Committed(p, a), Committed(h, a), s.version);
  }

  /** No event after the i-th replaces or deletes the snapshot that it saves. */
  predicate Kept(h: seq<Event>, i: nat)
    requires i < |h| && h[i].SaveSnapshot?
  {
    forall j | i < j < |h| ::
      && (h[j].SaveSnapshot? ==> h[j].a != h[i].a)
      && (h[j].DeleteSnapshot? && h[j].a == h[i].a ==> h[j].before <= h[i].s.version)
  }

  /** Snapshots may be saved and deleted at any time. */
  lemma SnapshotsAnyTime(h: seq<Event>, unique: bool, a: Aggregate, s: Snapshot, before: int)
    requires Legal(h, unique)
    ensures Legal(h + [SaveSnapshot(a, s)], unique) && Legal(h + [DeleteSnapshot(a, before)], unique)
    ensures Run(h + [SaveSnapshot(a, s)], unique).rows == Run(h + [DeleteSnapshot(a, before)], unique).rows
            == Run(h, unique).rows
  {
    Then(h, SaveSnapshot(a, s), unique);
    Then(h, DeleteSnapshot(a, before), unique);
  }

  /** The stored snapshot of an aggregate is the one saved last, whatever its version, unless a Delete has
      asked since for everything below a later version. */
  lemma {:induction false} SnapshotIsLastSaved(h: seq<Event>, unique: bool, a: Aggregate, s: Snapshot)
    requires Legal(h, unique)
    ensures a in Run(h, unique).snapshots && Run(h, unique).snapshots[a] == s <==>
            exists i | 0 <= i < |h| :: h[i] == SaveSnapshot(a, s) && Kept(h, i)
  {
    if h != [] {
      var p, e := Front(h), Last(h);
      SnapshotIsLastSaved(p, unique, a, s);
      assert h == p + [e];
      forall i | 0 <= i < |p| && h[i] == SaveSnapshot(a, s)
        ensures Kept(h, i) <==> Kept(p, i) && !(e.SaveSnapshot? && e.a == a)
                                && (e.DeleteSnapshot? && e.a == a ==> e.before <= s.version)
      {
      }
      if e == SaveSnapshot(a, s) {
        assert h[|p|] == SaveSnapshot(a, s) && Kept(h, |p|);
      }
    }
  }

  lemma ReplayTail(f: Folder, start: string, events: seq<DomainEvent>, s: Snapshot)
    requires Faithful(f, start, events, s)
    ensures Fold(f, s.data, events[s.version..]) == Fold(f, start, events)
  {
    FoldSplits(f, start, events[..s.version], events[s.version..]);
    assert events[..s.version] + events[s.version..] == events;
  }

  /** Snapshot plus tail replay equals full replay, in every reachable state. */
  lemma SnapshotReplay(h: seq<Event>, f: Folder, start: string, a: Aggregate, tail: seq<DomainEvent>, full: seq<DomainEvent>)
    requires Legal(h, true) && AllWellNumbered(h, true, a) && FaithfulSaves(h, f, start) && a in Run(h, true).snapshots
    requires Loaded(Run(h, true).rows, a, Run(h, true).snapshots[a].version + 1, tail)
    requires Loaded(Run(h, true).rows, a, 0, full)
    ensures Fold(f, Run(h, true).snapshots[a].data, tail) == Fold(f, start, full)
  {
    var s := Run(h, true).snapshots[a];
    SnapshotsStayFaithful(h, f, start, a);
    LoadIsCommitted(h, a, s.version + 1, tail);
    LoadIsCommitted(h, a, 0, full);
    ReplayTail(f, start, Committed(h, a), s);
  }

  // ----- the objects

  datatype AppendResult = Appended | Conflict | DuplicateKey | Failed

  predicate Collides(rows: seq<DomainEvent>, e: DomainEvent) {
    exists j | 0 <= j < |rows| :: SameKey(rows[j], e)
  }

  /** The unique index lets the whole batch in, one row after the other. */
  predicate LetIn(rows: seq<DomainEvent>, batch: seq<DomainEvent>) {
    batch == [] || (LetIn(rows, Front(batch)) && !Collides(rows + Normals(Front(batch)), Last(batch)))
  }

  lemma {:induction false} LetInPrefix(rows: seq<DomainEvent>, batch: seq<DomainEvent>, k: nat)
    requires k <= |batch| && LetIn(rows, batch)
    ensures LetIn(rows, batch[..k])
  {
    if k == |batch| {
      assert batch[..k] == batch;
    } else {
      LetInPrefix(rows, Front(batch), k);
      assert Front(batch)[..k] == batch[..k];
    }
  }

  lemma NormalsNext(batch: seq<DomainEvent>, i: nat)
    requires i < |batch|
    ensures Normals(batch[..i + 1]) == Normals(batch[..i]) + [Normal(batch[i])]
  {
  }

  lemma LetInNext(rows: seq<DomainEvent>, batch: seq<DomainEvent>, i: nat)
    requires i < |batch| && LetIn(rows, batch[..i])
    ensures LetIn(rows, batch[..i + 1]) <==> !Collides(rows + Normals(batch[..i]), batch[i])
    ensures LetIn(rows, batch) ==> LetIn(rows, batch[..i + 1])
    ensures Normals(batch[..i + 1]) == Normals(batch[..i]) + [Normal(batch[i])]
  {
    Extend(batch[..i], batch[i]);
    assert batch[..i + 1] == batch[..i] + [batch[i]];
    if LetIn(rows, batch) {
      LetInPrefix(rows, batch, i + 1);
    }
  }

  lemma CollidesWith(rows: seq<DomainEvent>, batch: seq<DomainEvent>, e: DomainEvent)
    ensures Collides(rows + Normals(batch), e) <==> Collides(rows, e) || Collides(batch, e)
  {
    var all, more := rows + Normals(batch), Normals(batch);
    if Collides(all, e) {
      var j :| 0 <= j < |all| && SameKey(all[j], e);
      if j < |rows| {
        assert SameKey(rows[j], e);
      } else {
        assert SameKey(batch[j - |rows|], e);
      }
    } else {
      forall j | 0 <= j < |rows| ensures !SameKey(rows[j], e) {
        assert all[j] == rows[j];
      }
      forall j | 0 <= j < |batch| ensures !SameKey(batch[j], e) {
        assert all[|rows| + j] == Normal(batch[j]);
      }
    }
  }

  /** That is: no event of the batch has the key of a stored row or of an earlier event. */
  lemma {:induction false} LetInMeans(rows: seq<DomainEvent>, batch: seq<DomainEvent>)
    ensures LetIn(rows, batch) <==>
            forall i | 0 <= i < |batch| :: !Collides(rows, batch[i]) && !Collides(batch[..i], batch[i])
  {
    if batch != [] {
      var p, n := Front(batch), |batch| - 1;
      LetInMeans(rows, p);
      CollidesWith(rows, p, Last(batch));
      assert forall i | 0 <= i <= n :: p[..i] == batch[..i];
      assert batch[..n] == p && batch[n] == Last(batch);
      assert forall i | 0 <= i < n :: p[i] == batch[i];
    }
  }

  /** The n-th event of an aggregate in a batch that numbers it well has the n-th next version. */
  lemma VersionAt(batch: seq<DomainEvent>, k: nat, version: int)
    requires k < |batch| && NumberedFrom(Of(batch, batch[k].aggregate), version)
    ensures batch[k].version == version + 1 + |Of(batch[..k], batch[k].aggregate)|
  {
    var a := batch[k].aggregate;
    OfNext(batch, k, a);
    FirstStays(batch, k + 1, a);
    assert Of(batch, a)[|Of(batch[..k], a)|] == batch[k];
  }

  lemma FewerBefore(batch: seq<DomainEvent>, j: nat, k: nat, a: Aggregate)
    requires j < k <= |batch| && batch[j].aggregate == a
    ensures |Of(batch[..j], a)| < |Of(batch[..k], a)|
  {
    OfNext(batch, j, a);
    FirstStays(batch[..k], j + 1, a);
    assert batch[..k][..j + 1] == batch[..j + 1];
  }

  /** The index admits every batch that numbers each of its aggregates from the latest version on. */
  lemma NextIsAdmitted(rows: seq<DomainEvent>, batch: seq<DomainEvent>)
    requires forall e | e in batch ::
               Numbered(rows, e.aggregate) && NumberedFrom(Of(batch, e.aggregate), Latest(rows, e.aggregate))
    ensures LetIn(rows, batch)
  {
    LetInMeans(rows, batch);
    forall k | 0 <= k < |batch| ensures !Collides(rows, batch[k]) && !Collides(batch[..k], batch[k]) {
      var e, a := batch[k], batch[k].aggregate;
      assert e in batch;
      VersionAt(batch, k, Latest(rows, a));
      forall i | 0 <= i < |rows| ensures !SameKey(rows[i], e) {
        if rows[i].aggregate == a {
          OfMembers(rows, a, rows[i]);
          LatestIsLength(rows, a);
        }
      }
      forall j | 0 <= j < k ensures !SameKey(batch[..k][j], e) {
        if batch[j].aggregate == a {
          VersionAt(batch, j, Latest(rows, a));
          FewerBefore(batch, j, k, a);
        }
      }
    }
  }

  lemma Next(h: seq<Event>, e: Event) returns (n: seq<Event>)
    requires Legal(h, true) && Enabled(Run(h, true), e, true)
    ensures Legal(n, true) && Run(n, true) == Step(Run(h, true), e, true)
  {
    Then(h, e, true);
    n := h + [e];
  }

  lemma {:induction false} InsertsAreLegal(h: seq<Event>, c: Client, batch: seq<DomainEvent>, expected: int, k: nat)
    returns (n: seq<Event>)
    requires Legal(h, true) && k <= |batch| && Run(h, true).open == map[c := Inserting(batch, expected, k)]
    requires LetIn(Run(h, true).rows, batch)
    ensures Legal(n, true) && Run(n, true) == Run(h, true).(open := map[c := Inserting(batch, expected, |batch|)])
    decreases |batch| - k
  {
    if k == |batch| {
      n := h;
    } else {
      var s := Run(h, true);
      LetInMeans(s.rows, batch);
      assert !Collides(batch[..k], batch[k]);
      assert forall i | 0 <= i < k :: batch[..k][i] == batch[i];
      n := Next(h, Insert(c));
      n := InsertsAreLegal(n, c, batch, expected, k + 1);
    }
  }

  /** A successful Append is a legal run of the protocol, with the same rows in the end. */
  lemma AppendIsLegal(h: seq<Event>, c: Client, batch: seq<DomainEvent>, expected: int) returns (n: seq<Event>)
    requires Legal(h, true) && Run(h, true).open == map[] && batch != []
    requires Latest(Run(h, true).rows, batch[0].aggregate) == expected && LetIn(Run(h, true).rows, batch)
    ensures Legal(n, true) && Run(n, true) == Run(h, true).(rows := Run(h, true).rows + Normals(batch))
  {
    n := Next(h, Begin(c, batch, expected));
    n := Next(n, ReadVersion(c));
    n := InsertsAreLegal(n, c, batch, expected, 0);
    n := Next(n, Commit(c, batch, expected));
  }

  lemma OfPair(d: DomainEvent, e: DomainEvent)
    requires d.aggregate != e.aggregate
    ensures Of([d, e], d.aggregate) == [d] && Of([d, e], e.aggregate) == [e]
  {
    assert [d] + [e] == [d, e];
    OfAppend([d], [e], d.aggregate);
    OfAppend([d], [e], e.aggregate);
    OfOne([d], d.aggregate);
    OfOne([d], e.aggregate);
    OfOne([e], d.aggregate);
    OfOne([e], e.aggregate);
  }

  lemma AppendToEmpty(batch: seq<DomainEvent>) returns (h: seq<Event>)
    requires batch != [] && LetIn([], batch)
    ensures Legal(h, true) && Run(h, true).rows == Normals(batch)
  {
    h := AppendIsLegal([], 1, batch, 0);
    assert [] + Normals(batch) == Normals(batch);
  }

  /** The store accepts appends that break the numbering. One event of any version but 1 may come first. */
  lemma MisnumberedCommits(d: DomainEvent) returns (h: seq<Event>)
    requires d.version != 1
    ensures Legal(h, true) && Run(h, true).rows == [Normal(d)] && !Numbered(Run(h, true).rows, d.aggregate)
  {
    LetInMeans([], [d]);
    h := AppendToEmpty([d]);
    var rows := Normals([d]);
    OfOne(rows, d.aggregate);
    assert Of(rows, d.aggregate)[0].version == d.version;
  }

  lemma PairLetIn(d: DomainEvent, e: DomainEvent)
    requires !SameKey(d, e)
    ensures LetIn([], [d, e])
  {
    var batch := [d, e];
    LetInMeans([], batch);
    assert batch[..1] == [d] && batch[..0] == [];
  }

  /** And a batch may be right for the aggregate that is checked and wrong for another. */
  lemma MisnumberedElsewhere(d: DomainEvent, e: DomainEvent) returns (h: seq<Event>)
    requires d.aggregate != e.aggregate && d.version == 1 && e.version != 1
    ensures Legal(h, true) && Run(h, true).rows == [Normal(d), Normal(e)]
    ensures Numbered(Run(h, true).rows, d.aggregate) && !Numbered(Run(h, true).rows, e.aggregate)
  {
    PairLetIn(d, e);
    h := AppendToEmpty([d, e]);
    assert Normals([d, e]) == [Normal(d), Normal(e)];
    OfPair(Normal(d), Normal(e));
    assert [Normal(e)][0].version != 1;
  }

  function InsertByVersion(s: seq<DomainEvent>, e: DomainEvent): seq<DomainEvent> {
    if s == [] || Last(s).version <= e.version then s + [e]
    else InsertByVersion(Front(s), e) + [Last(s)]
  }

  lemma {:induction false} InsertKeeps(s: seq<DomainEvent>, e: DomainEvent)
    ensures multiset(InsertByVersion(s, e)) == multiset(s) + multiset{e}
  {
    if s != [] && Last(s).version > e.version {
      InsertKeeps(Front(s), e);
      MultisetFront(s);
    }
  }

  lemma {:induction false} InsertSorts(s: seq<DomainEvent>, e: DomainEvent, bound: int)
    requires Sorted(s) && e.version <= bound && forall i | 0 <= i < |s| :: s[i].version <= bound
    ensures Sorted(InsertByVersion(s, e))
    ensures forall i | 0 <= i < |InsertByVersion(s, e)| :: InsertByVersion(s, e)[i].version <= bound
  {
    if s != [] && Last(s).version > e.version {
      InsertSorts(Front(s), e, Last(s).version);
    }
  }

  /** ORDER BY version ASC. */
  function ByVersion(s: seq<DomainEvent>): seq<DomainEvent> {
    if s == [] then [] else InsertByVersion(ByVersion(Front(s)), Last(s))
  }

  lemma {:induction false} ByVersionSorts(s: seq<DomainEvent>)
    ensures Sorted(ByVersion(s)) && multiset(ByVersion(s)) == multiset(s)
  {
    if s != [] {
      ByVersionSorts(Front(s));
      var r, e := ByVersion(Front(s)), Last(s);
      InsertSorts(r, e, if r == [] then e.version else Max(Last(r).version, e.version));
      InsertKeeps(r, e);
      MultisetFront(s);
    }
  }

  /** The stored rows are those before, and then the events, with every field. */
  predicate StoredAfter(before: seq<DomainEvent>, rows: seq<DomainEvent>, events: seq<DomainEvent>) {
    before <= rows && AllKept(rows[|before|..], events)
  }

  /** One of the statements from `first` to `last` fails. */
  predicate SomeFails(fails: nat -> bool, first: nat, last: nat) {
    exists k: nat | first <= k <= last :: fails(k)
  }

  /** What others may commit meanwhile does not stand in the way of the rows already inserted. */
  lemma OthersKeepLetIn(rows: seq<DomainEvent>, others: seq<DomainEvent>, batch: seq<DomainEvent>)
    requires LetIn(rows, batch) && forall j | 0 <= j < |others| :: !Collides(Normals(batch), others[j])
    ensures LetIn(rows + others, batch)
  {
    LetInMeans(rows, batch);
    LetInMeans(rows + others, batch);
    forall i | 0 <= i < |batch| ensures !Collides(rows + others, batch[i]) {
      forall j | 0 <= j < |rows + others| ensures !SameKey((rows + others)[j], batch[i]) {
        if j < |rows| {
          assert !SameKey(rows[j], batch[i]);
        } else {
          assert !SameKey(Normals(batch)[i], others[j - |rows|]);
        }
      }
    }
  }

  class PostgresEventStore {
    var rows: seq<DomainEvent>

    /** No other transaction commits meanwhile. */
    const alone: bool

    constructor (alone: bool)
      ensures rows == [] && this.alone == alone
    {
      rows := [];
      this.alone := alone;
    }

    /** Other transactions commit; the unique index holds back those with the key of a row that this one
        has inserted. */
    method Others(inserted: seq<DomainEvent>) returns (ghost others: seq<DomainEvent>)
      modifies this
      ensures rows == old(rows) + others && (alone ==> others == [])
      ensures forall j | 0 <= j < |others| :: !Collides(inserted, others[j])
    {
      var theirs: seq<DomainEvent> := *;
      if alone || exists j | 0 <= j < |theirs| :: Collides(inserted, theirs[j]) {
        others := [];
      } else {
        rows := rows + theirs;
        others := theirs;
      }
    }

    /** The inserts of Append, with other transactions committing before each of them: all rows of the
        batch, which nobody sees yet, or nothing when the unique index refuses one. `fails` tells which
        statements of the transaction fail, counted from the version check. */
    method InsertAll(events: seq<DomainEvent>, fails: nat -> bool) returns (r: AppendResult, inserted: seq<DomainEvent>)
      modifies this
      ensures old(rows) <= rows && (alone ==> rows == old(rows))
      ensures r.Appended? ==> inserted == Normals(events) && LetIn(rows, events)
      ensures r.DuplicateKey? ==> !LetIn(rows, events)
      ensures r.Failed? ==> SomeFails(fails, 1, |events|)
      ensures r.Appended? ==> !SomeFails(fails, 1, |events|)
      ensures !r.Conflict?
    {
      inserted := [];
      var i := 0;
      while i < |events|
        invariant 0 <= i <= |events| && inserted == Normals(events[..i])
        invariant old(rows) <= rows && (alone ==> rows == old(rows))
        invariant LetIn(rows, events[..i])
        invariant !SomeFails(fails, 1, i)
      {
        var e := events[i];
        ghost var before := rows;
        ghost var more := Others(inserted);
        OthersKeepLetIn(before, more, events[..i]);
        if fails(i + 1) {
          return Failed, inserted;
        }
        LetInNext(rows, events, i);
        if Collides(rows + inserted, e) {
          return DuplicateKey, inserted;
        }
        inserted := inserted + [if e.schemaVersion == 0 then e.(schemaVersion := 1) else e];
        i := i + 1;
      }
      assert events[..|events|] == events;
      r := Appended;
    }

    /** The inserts and the commit, when the rows become visible, after whatever others have committed before
        it: the rows `before`. */
    method InsertAndCommit(events: seq<DomainEvent>, fails: nat -> bool)
      returns (r: AppendResult, ghost before: seq<DomainEvent>)
      modifies this
      ensures old(rows) <= before && (alone ==> before == old(rows))
      ensures StoredAfter(before, rows, if r.Appended? then events else [])
      ensures r.Appended? ==> LetIn(before, events)
      ensures r.DuplicateKey? ==> !LetIn(before, events)
      ensures r.Failed? ==> SomeFails(fails, 1, |events| + 1)
      ensures r.Appended? ==> !SomeFails(fails, 1, |events| + 1)
      ensures !r.Conflict?
    {
      var inserted: seq<DomainEvent>;
      r, inserted := InsertAll(events, fails);
      before := rows;
      if r.Appended? {
        ghost var more := Others(inserted);
        OthersKeepLetIn(before, more, events);
        before := rows;
        if fails(|events| + 1) {
          r := Failed;
        } else {
          rows := rows + inserted;
          NormalsKeep(events);
        }
      }
    }

    /** Append on any batch, with other transactions committing between its statements. All of the batch
        is stored, after the rows `before`, that is everything committed before it, or nothing. The version
        check decides on the rows it has `seen`, the unique index on those before the batch, and otherwise it
        fails only when a statement does. */
    method Append(events: seq<DomainEvent>, expected: int, fails: nat -> bool)
      returns (r: AppendResult, ghost seen: seq<DomainEvent>, ghost before: seq<DomainEvent>)
      modifies this
      ensures old(rows) <= seen <= before && (alone ==> before == old(rows))
      ensures StoredAfter(before, rows, if r.Appended? then events else [])
      ensures events == [] ==> r.Appended? && before == old(rows)
      ensures events != [] && r.Conflict? ==> Latest(seen, events[0].aggregate) != expected
      ensures events != [] && (r.Appended? || r.DuplicateKey?) ==> Latest(seen, events[0].aggregate) == expected
      ensures r.Appended? ==> LetIn(before, events)
      ensures r.DuplicateKey? ==> !LetIn(before, events)
      ensures events != [] && fails(0) ==> r.Failed?
      ensures r.Failed? ==> SomeFails(fails, 0, |events| + 1)
      ensures r.Appended? && events != [] ==> !SomeFails(fails, 0, |events| + 1)
    {
      if events == [] {
        return Appended, rows, rows;
      }
      ghost var others := Others([]);
      seen, before := rows, rows;
      if fails(0) {
        return Failed, seen, before;
      }
      var current := Latest(rows, events[0].aggregate);
      if current != expected {
        return Conflict, seen, before;
      }
      r, before := InsertAndCommit(events, fails);
    }

    /** LoadFrom: the query, then a copy that replaces a missing schema version. */
    method LoadFrom(a: Aggregate, from: int) returns (events: seq<DomainEvent>)
      ensures exists models :: Loaded(rows, a, from, models) && AllKept(events, models)
    {
      var found := ByVersion(FromVersion(Of(rows, a), from));
      ByVersionSorts(FromVersion(Of(rows, a), from));
      assert Loaded(rows, a, from, found);
      events := [];
      var i := 0;
      while i < |found|
        invariant 0 <= i <= |found| && events == Normals(found[..i])
      {
        var m := found[i];
        NormalsNext(found, i);
        events := events + [if m.schemaVersion == 0 then m.(schemaVersion := 1) else m];
        i := i + 1;
      }
      assert found[..|found|] == found;
    }
  }

  class PostgresSnapshotStore {
    var snapshots: map<Aggregate, Snapshot>

    /** Save replaces whatever snapshot the aggregate had, also a newer one. */
    method Save(a: Aggregate, s: Snapshot)
      modifies this
      ensures snapshots == old(snapshots)[a := s]
    {
      snapshots := snapshots[a := s];
    }

    method Load(a: Aggregate) returns (s: Option<Snapshot>)
      ensures s == if a in snapshots then Some(snapshots[a]) else None
    {
      s := if a in snapshots then Some(snapshots[a]) else None;
    }

    method Delete(a: Aggregate, before: int)
      modifies this
      ensures snapshots == Pruned(old(snapshots), a, before)
    {
      if a in snapshots && snapshots[a].version < before {
        snapshots := snapshots - {a};
      }
    }
  }
}
