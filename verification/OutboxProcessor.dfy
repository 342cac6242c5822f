/**
 The polling processor of outbox/processor.go: one transaction of ProcessNext, one tick of
 processBatch, and how long a row can wait over many ticks.
 */
module OutboxProcessors {
  import opened Common
  import opened Outboxes

  datatype Config = Config(batchSize: int, maxRetries: int)

  type ActiveConfig = c: Config | c.batchSize > 0 && c.maxRetries > 0 witness Config(100, 5)

  /** The defaults that NewProcessor puts in place of settings that are not positive. */
  function Normalize(c: Config): (r: ActiveConfig)
    ensures r.batchSize == if c.batchSize > 0 then c.batchSize else 100
    ensures r.maxRetries == if c.maxRetries > 0 then c.maxRetries else 5
  {
    Config(if c.batchSize <= 0 then 100 else c.batchSize,
           if c.maxRetries <= 0 then 5 else c.maxRetries)
  }

  datatype ClaimResult = NothingClaimed | ClaimedRow(id: Id, publishError: Option<string>)

  /** The broker, with the rows handed to it in order. Whether a publish succeeds is its choice. */
  class Publisher {
    var handed: seq<Id>

    method Publish(id: Id) returns (error: Option<string>)
      modifies this
      ensures handed == old(handed) + [id]
    {
      handed := handed + [id];
      error := *;
    }
  }

  /** What one attempt leaves of a row: processed, or with one more retry on it. */
  predicate Attempted(before: Row, after: Row) {
    && after.createdAt == before.createdAt
    && if after.processedAt == before.processedAt
       then after.error.Some? && after.retryCount == before.retryCount + 1
       else after.processedAt.Some? && after.error == before.error && after.retryCount == before.retryCount
  }

  function Elements(ids: seq<Id>): set<Id> {
    set id | id in ids
  }

  /** ORDER BY created_at LIMIT 1. */
  method Oldest(rows: Table, cap: int, skip: set<Id>) returns (id: Id)
    requires exists o | o in rows :: Claimable(rows, cap, o) && o !in skip
    ensures Selects(rows, cap, skip, id)
  {
    var rest := set o | o in rows && Claimable(rows, cap, o) && o !in skip;
    assert exists o | o in rows :: o in rest;
    id :| id in rest;
    rest := rest - {id};
    while rest != {}
      invariant Claimable(rows, cap, id) && id !in skip
      invariant forall o | o in rest :: o in rows
      invariant forall o | o in rows && Claimable(rows, cap, o) && o !in skip :: o in rest || rows[id].createdAt <= rows[o].createdAt
      decreases rest
    {
      var o :| o in rest;
      if Claimable(rows, cap, o) && o !in skip && rows[o].createdAt < rows[id].createdAt {
        id := o;
      }
      rest := rest - {o};
    }
  }

  /** What one transaction meets: the rows that other transactions hold, and whether its SELECT or its UPDATE
      fails, commit included. */
  datatype Env = Env(locked: set<Id>, selectFails: bool, markFails: bool)

  /** Nothing is in the way of any transaction. */
  ghost predicate Quiet(env: nat -> Env) {
    forall k :: env(k) == Env({}, false, false)
  }

  /** The row waits for an attempt, and nothing keeps this transaction from it. */
  predicate Free(rows: Table, cap: int, exclude: seq<Id>, locked: set<Id>, id: Id) {
    id in rows && rows[id].processedAt == None && rows[id].retryCount < cap && id !in exclude && id !in locked
  }

  class Database {
    var rows: Table
    /** Nobody else changes the table meanwhile. */
    const alone: bool

    constructor (rows: Table, alone: bool)
      ensures this.rows == rows && this.alone == alone
    {
      this.rows, this.alone := rows, alone;
    }

    /** Other transactions commit. They cannot touch the row that this one has locked. */
    method Others(locked: Option<Id>)
      requires locked.Some? ==> locked.value in rows
      modifies this
      ensures alone ==> rows == old(rows)
      ensures locked.Some? ==> locked.value in rows && rows[locked.value] == old(rows)[locked.value]
    {
      if !alone {
        var t: Table := *;
        rows := if locked.Some? then t[locked.value := rows[locked.value]] else t;
      }
    }

    /** ProcessNext: claim one row, hand it to the publisher, mark it, in one transaction; `seen` is the table
        that its SELECT sees. It takes an oldest free row, and none only when none is free. A failed statement
        rolls the mark back; the publish stays done. */
    method ProcessNext(cap: int, exclude: seq<Id>, publisher: Publisher, env: Env)
      returns (res: ClaimResult, failed: bool, ghost seen: Table)
      modifies this, publisher
      ensures publisher.handed == old(publisher.handed) + if res.NothingClaimed? then [] else [res.id]
      ensures failed <==> env.selectFails || (res.ClaimedRow? && env.markFails)
      ensures res.NothingClaimed? <==> env.selectFails || forall id | id in seen :: !Free(seen, cap, exclude, env.locked, id)
      ensures res.ClaimedRow? ==>
                && Free(seen, cap, exclude, env.locked, res.id)
                && forall o | o in seen && Free(seen, cap, exclude, env.locked, o) :: seen[res.id].createdAt <= seen[o].createdAt
      ensures res.ClaimedRow? && !failed ==>
                && res.id in rows && Attempted(seen[res.id], rows[res.id])
                && (res.publishError.Some? ==> rows[res.id].processedAt == None && rows[res.id].error == res.publishError)
                && (res.publishError == None ==> rows[res.id].processedAt.Some?)
      ensures alone ==>
                && seen == old(rows) && rows.Keys == old(rows).Keys
                && forall id | id in rows && (failed || res.NothingClaimed? || id != res.id) :: rows[id] == old(rows)[id]
    {
      res := NothingClaimed;
      Others(None);
      seen := rows;
      failed := env.selectFails;
      if failed {
        return;
      }
      var skip := Elements(exclude) + env.locked;
      if forall id | id in rows :: Claimable(rows, cap, id) ==> id in skip {
        return;
      }
      var id := Oldest(rows, cap, skip);
      var error := publisher.Publish(id);
      res := ClaimedRow(id, error);
      Others(Some(id));
      failed := env.markFails;
      if !failed {
        if error.Some? {
          rows := rows[id := MarkFailed(rows[id], error.value)];
        } else {
          var now: int := *;
          var marked := MarkProcessed(rows[id], now);
          rows := rows[id := marked];
        }
      }
    }
  }

  /** A whole transaction of ProcessNext is three legal steps of the protocol, and what they leave is
      the selected row marked, nothing else changed and nothing locked. */
  lemma TransactionIsLegal(h: seq<Event>, p: Outboxes.Processor, cap: int, exclude: set<Id>, id: Id, error: Option<string>, now: int)
    returns (longer: seq<Event>)
    requires Legal(h) && Enabled(Run(h), Claim(p, cap, exclude, id))
    ensures Legal(longer) && h <= longer
    ensures Run(longer).open == Run(h).open && Run(longer).inserted == Run(h).inserted
    ensures Run(longer).table == Run(h).table[id :=
              if error.Some? then MarkFailed(Run(h).table[id], error.value) else MarkProcessed(Run(h).table[id], now)]
    ensures Publishes(longer, id) == Publishes(h, id) + Hit(error == None)
  {
    var claim := Claim(p, cap, exclude, id);
    var publish := if error.Some? then PublishError(p, id, error.value) else PublishOk(p, id);
    var commit := if error.Some? then CommitFailed(p, id) else CommitProcessed(p, id, now);
    var h1, h2 := h + [claim], h + [claim] + [publish];
    Then(h, claim);
    Then(h1, publish);
    Then(h2, commit);
    longer := h2 + [commit];
    assert Run(longer).open == Run(h).open;
  }

  // ----- one tick

  function AllClaimable(t: Table, cap: int): set<Id> {
    set id | id in t && t[id].processedAt == None && t[id].retryCount < cap
  }

  /** Each row of the list is the oldest claimable one that is not earlier in the list. */
  predicate Picks(t: Table, cap: int, ids: seq<Id>) {
    forall i | 0 <= i < |ids| :: Selects(t, cap, Elements(ids[..i]), ids[i])
  }

  /** The listed rows were attempted once and no other row changed. */
  ghost predicate Touched(before: Table, after: Table, ids: seq<Id>) {
    && before.Keys == after.Keys
    && (forall id | id in before && id in ids :: Attempted(before[id], after[id]))
    && (forall id | id in before && id !in ids :: after[id] == before[id])
  }

  /** A tick of a processor that is alone: it attempts exactly the oldest `batch` claimable rows, or
      all of them when there are fewer, oldest first, and touches no other row. */
  ghost predicate Tick(batch: nat, cap: int, before: Table, after: Table, attempted: seq<Id>) {
    && |attempted| == Min(batch, |AllClaimable(before, cap)|)
    && Picks(before, cap, attempted)
    && Touched(before, after, attempted)
  }

  /** What the picking order means: no row twice, only claimable rows, none older left behind. */
  lemma PicksOldest(t: Table, cap: int, ids: seq<Id>)
    requires Picks(t, cap, ids)
    ensures Distinct(ids)
    ensures Elements(ids) <= AllClaimable(t, cap)
    ensures forall i, o | 0 <= i < |ids| && o in AllClaimable(t, cap) && o !in ids :: t[ids[i]].createdAt <= t[o].createdAt
    ensures forall i, j | 0 <= i < j < |ids| :: t[ids[i]].createdAt <= t[ids[j]].createdAt
  {
    forall i, j | 0 <= i < j < |ids| ensures ids[i] != ids[j] && t[ids[i]].createdAt <= t[ids[j]].createdAt {
      assert ids[i] == ids[..j][i];
      assert ids[j] !in Elements(ids[..j]);
      assert forall x | x in ids[..i] :: x in ids[..j];
      assert ids[j] !in Elements(ids[..i]);
    }
    forall i, o | 0 <= i < |ids| && o in AllClaimable(t, cap) && o !in ids
      ensures t[ids[i]].createdAt <= t[o].createdAt
    {
      assert o !in Elements(ids[..i]);
    }
  }

  lemma {:induction false} DistinctSize(ids: seq<Id>)
    requires Distinct(ids)
    ensures |Elements(ids)| == |ids|
  {
    if ids == [] {
      assert Elements(ids) == {};
    } else {
      DistinctSize(Front(ids));
      assert Elements(ids) == Elements(Front(ids)) + {Last(ids)};
    }
  }

  lemma TickContinues(cap: int, before: Table, mid: Table, now: Table, tried: seq<Id>, id: Id)
    requires Picks(before, cap, tried) && Touched(before, mid, tried)
    requires Selects(mid, cap, Elements(tried), id)
    requires mid.Keys == now.Keys && Attempted(mid[id], now[id])
    requires forall o | o in now && o != id :: now[o] == mid[o]
    ensures Picks(before, cap, tried + [id]) && Touched(before, now, tried + [id])
  {
    var t := tried + [id];
    assert mid[id] == before[id];
    forall i | 0 <= i < |t| ensures Selects(before, cap, Elements(t[..i]), t[i]) {
      assert t[..i] == tried[..i];
      if i == |tried| {
        assert t[..i] == tried;
        forall o | o in before && Claimable(before, cap, o) && o !in tried
          ensures before[id].createdAt <= before[o].createdAt
        {
          assert mid[o] == before[o] && Claimable(mid, cap, o);
        }
      }
    }
  }

  lemma {:induction false} Subset<T>(a: set<T>, b: set<T>)
    requires a <= b
    ensures |a| <= |b|
  {
    assert b == a + (b - a);
  }

  lemma TickEnds(batch: nat, cap: int, before: Table, now: Table, tried: seq<Id>)
    requires Picks(before, cap, tried) && Touched(before, now, tried) && |tried| <= batch
    requires |tried| == batch || forall id | id in now && Claimable(now, cap, id) :: id in tried
    ensures Tick(batch, cap, before, now, tried)
  {
    PicksOldest(before, cap, tried);
    DistinctSize(tried);
    var all := AllClaimable(before, cap);
    Subset(Elements(tried), all);
    if |tried| < batch {
      forall id | id in all ensures id in tried || Claimable(now, cap, id) {
      }
      assert Elements(tried) == all;
    }
  }

  class Processor {
    const config: ActiveConfig
    const database: Database
    const publisher: Publisher

    constructor (c: Config, database: Database, publisher: Publisher)
      ensures config == Normalize(c) && this.database == database && this.publisher == publisher
    {
      config := Normalize(c);
      this.database, this.publisher := database, publisher;
    }

    /** One tick; `env(k)` is what the transaction after k attempts meets, and `seen` the table of its last
        SELECT. No row is handed to the publisher twice and at most `batchSize` rows are, whatever others do and
        whichever statements fail; and the tick ends before that only when a statement fails or no row is
        free. Alone it is exactly a `Tick`. */
    method ProcessBatch(env: nat -> Env) returns (ghost seen: Table)
      modifies database, publisher
      ensures old(publisher.handed) <= publisher.handed
      ensures var attempted := publisher.handed[|old(publisher.handed)|..];
              && Distinct(attempted) && |attempted| <= config.batchSize
              && (|attempted| == config.batchSize
                  || env(|attempted|).selectFails || (attempted != [] && env(|attempted| - 1).markFails)
                  || forall id | id in seen :: !Free(seen, config.maxRetries, attempted, env(|attempted|).locked, id))
              && (database.alone && Quiet(env) ==>
                    Tick(config.batchSize, config.maxRetries, old(database.rows), database.rows, attempted))
    {
      var tried: seq<Id> := [];
      seen := database.rows;
      while |tried| < config.batchSize
        invariant |tried| <= config.batchSize && Distinct(tried)
        invariant publisher.handed == old(publisher.handed) + tried
        invariant database.alone && Quiet(env) ==>
                    && Picks(old(database.rows), config.maxRetries, tried)
                    && Touched(old(database.rows), database.rows, tried)
        decreases config.batchSize - |tried|
      {
        ghost var mid := database.rows;
        var res, failed;
        res, failed, seen := database.ProcessNext(config.maxRetries, tried, publisher, env(|tried|));
        if failed {
          assert publisher.handed[|old(publisher.handed)|..] == tried + if res.NothingClaimed? then [] else [res.id];
          return;
        }
        if res.NothingClaimed? {
          break;
        }
        if database.alone && Quiet(env) {
          TickContinues(config.maxRetries, old(database.rows), mid, database.rows, tried, res.id);
        }
        tried := tried + [res.id];
      }
      assert publisher.handed[|old(publisher.handed)|..] == tried;
      if database.alone && Quiet(env) {
        TickEnds(config.batchSize, config.maxRetries, old(database.rows), database.rows, tried);
      }
    }
  }

  // ----- many ticks

  /** Between two ticks only rows newer than `age` appear, under ids never used before, and only processed
      rows are cleaned up. */
  ghost predicate Meanwhile(after: Table, next: Table, age: int, used: set<Id>) {
    && (forall id | id in next ::
          || (id in after && next[id] == after[id])
          || (id !in after && id !in used && next[id].createdAt > age))
    && (forall id | id in after && id !in next :: after[id].processedAt.Some?)
  }

  /** The rows that stand before `row`: claimable, and no younger. */
  ghost predicate Rival(t: Table, cap: int, row: Id, id: Id)
    requires row in t
  {
    id != row && Claimable(t, cap, id) && t[id].createdAt <= t[row].createdAt
  }

  /** One tick, with the table before and after it. */
  datatype Round = Round(before: Table, after: Table, attempted: seq<Id>)

  /** Ticks one after the other, with rows newer than `age` arriving and cleanups running in between. */
  ghost predicate Ticks(batch: nat, cap: int, age: int, rounds: seq<Round>) {
    && (forall r | r in rounds :: Tick(batch, cap, r.before, r.after, r.attempted))
    && (forall i, j | 0 <= i && j == i + 1 && j < |rounds| ::
          Meanwhile(rounds[i].after, rounds[j].before, age, rounds[0].before.Keys))
  }

  /** How many of the listed ids are in the set. */
  function Overlap(spent: set<Id>, ids: seq<Id>): nat {
    if ids == [] then 0 else Overlap(spent, Front(ids)) + Hit(Last(ids) in spent)
  }

  lemma {:induction false} OverlapGrows(a: set<Id>, b: set<Id>, ids: seq<Id>)
    requires a <= b
    ensures Overlap(a, ids) <= Overlap(b, ids)
  {
    if ids != [] {
      OverlapGrows(a, b, Front(ids));
    }
  }

  lemma {:induction false} OverlapCovers(spent: set<Id>, ids: seq<Id>)
    requires spent <= Elements(ids)
    ensures |spent| <= Overlap(spent, ids)
  {
    if ids != [] {
      var x := Last(ids);
      assert spent - {x} <= Elements(Front(ids));
      OverlapCovers(spent - {x}, Front(ids));
      OverlapGrows(spent - {x}, spent, Front(ids));
    }
  }

  lemma {:induction false} BudgetDrops(t: Table, u: Table, cap: nat, ids: seq<Id>, spent: set<Id>)
    requires forall id | id in ids :: Budget(u, cap, id) + Hit(id in spent) <= Budget(t, cap, id)
    ensures TotalBudget(u, cap, ids) + Overlap(spent, ids) <= TotalBudget(t, cap, ids)
  {
    if ids != [] {
      assert Last(ids) in ids && forall id | id in Front(ids) :: id in ids;
      BudgetDrops(t, u, cap, Front(ids), spent);
    }
  }

  lemma {:induction false} BudgetAtMost(t: Table, cap: nat, ids: seq<Id>)
    ensures TotalBudget(t, cap, ids) <= Times(|ids|, cap)
  {
    if ids != [] {
      BudgetAtMost(t, cap, Front(ids));
    }
  }

  /** `row` is claimable and everything that stands before it is listed. */
  ghost predicate Waiting(t: Table, cap: nat, row: Id, rivals: seq<Id>) {
    Claimable(t, cap, row) && forall id | id in t && Rival(t, cap, row, id) :: id in rivals
  }

  /** A tick that passes `row` over spends the whole batch on its rivals. */
  lemma TickSpendsBatch(batch: nat, cap: nat, t: Table, u: Table, attempted: seq<Id>, row: Id, rivals: seq<Id>)
    requires Tick(batch, cap, t, u, attempted)
    requires Waiting(t, cap, row, rivals) && row !in attempted
    ensures TotalBudget(u, cap, rivals) + batch <= TotalBudget(t, cap, rivals)
  {
    PicksOldest(t, cap, attempted);
    DistinctSize(attempted);
    var all, spent := AllClaimable(t, cap), Elements(attempted);
    assert spent <= all - {row};
    Subset(spent, all - {row});
    forall a | a in spent ensures a in rivals {
      assert Rival(t, cap, row, a);
    }
    OverlapCovers(spent, rivals);
    BudgetDrops(t, u, cap, rivals, spent);
  }

  /** Between ticks the rivals' budget cannot grow and no new rival appears. */
  lemma MeanwhileKeeps(cap: nat, t: Table, n: Table, row: Id, rivals: seq<Id>, used: set<Id>)
    requires Waiting(t, cap, row, rivals) && Meanwhile(t, n, t[row].createdAt, used)
    requires forall id | id in rivals :: id in used
    ensures row in n && n[row] == t[row]
    ensures Waiting(n, cap, row, rivals)
    ensures TotalBudget(n, cap, rivals) <= TotalBudget(t, cap, rivals)
  {
    assert row in n && n[row] == t[row];
    forall id | id in n && Rival(n, cap, row, id) ensures id in rivals {
      assert Rival(t, cap, row, id);
    }
    BudgetDrops(t, n, cap, rivals, {});
  }

  lemma TickKeepsWaiting(batch: nat, cap: nat, t: Table, u: Table, attempted: seq<Id>, row: Id, rivals: seq<Id>)
    requires Tick(batch, cap, t, u, attempted) && Waiting(t, cap, row, rivals) && row !in attempted
    ensures Waiting(u, cap, row, rivals) && u[row] == t[row]
  {
    forall id | id in u && Rival(u, cap, row, id) ensures id in rivals {
      assert Rival(t, cap, row, id);
    }
  }

  lemma OneTick(batch: nat, cap: nat, row: Id, rivals: seq<Id>, used: set<Id>, r: Round, next: Table)
    requires Tick(batch, cap, r.before, r.after, r.attempted) && Waiting(r.before, cap, row, rivals) && row !in r.attempted
    requires Meanwhile(r.after, next, r.before[row].createdAt, used) && forall id | id in rivals :: id in used
    ensures Waiting(next, cap, row, rivals) && next[row] == r.before[row]
    ensures TotalBudget(next, cap, rivals) + batch <= TotalBudget(r.before, cap, rivals)
  {
    TickKeepsWaiting(batch, cap, r.before, r.after, r.attempted, row, rivals);
    TickSpendsBatch(batch, cap, r.before, r.after, r.attempted, row, rivals);
    MeanwhileKeeps(cap, r.after, next, row, rivals, used);
  }

  /** After `k` ticks that all passed `row` over, `k` batches have been spent on its rivals. */
  lemma {:induction false} WaitingSpends(batch: nat, cap: nat, row: Id, rivals: seq<Id>, k: nat, rounds: seq<Round>)
    requires k < |rounds| && Waiting(rounds[0].before, cap, row, rivals)
    requires Ticks(batch, cap, rounds[0].before[row].createdAt, rounds)
    requires forall id | id in rivals :: id in rounds[0].before.Keys
    requires forall i | 0 <= i < k :: row !in rounds[i].attempted
    ensures Waiting(rounds[k].before, cap, row, rivals) && rounds[k].before[row] == rounds[0].before[row]
    ensures TotalBudget(rounds[k].before, cap, rivals) + Times(k, batch) <= TotalBudget(rounds[0].before, cap, rivals)
  {
    if k > 0 {
      var j := k - 1;
      WaitingSpends(batch, cap, row, rivals, j, rounds);
      assert rounds[j] in rounds;
      OneTick(batch, cap, row, rivals, rounds[0].before.Keys, rounds[j], rounds[k].before);
    }
  }

  lemma AttemptedBy(batch: nat, cap: nat, row: Id, rivals: seq<Id>, last: nat, rounds: seq<Round>)
    requires last < |rounds| && Times(last, batch) + batch > Times(|rivals|, cap)
    requires Waiting(rounds[0].before, cap, row, rivals)
    requires Ticks(batch, cap, rounds[0].before[row].createdAt, rounds)
    requires forall id | id in rivals :: id in rounds[0].before.Keys
    ensures exists i | 0 <= i <= last :: row in rounds[i].attempted
  {
    if forall i | 0 <= i <= last :: row !in rounds[i].attempted {
      WaitingSpends(batch, cap, row, rivals, last, rounds);
      var r := rounds[last];
      assert r in rounds;
      TickSpendsBatch(batch, cap, r.before, r.after, r.attempted, row, rivals);
      BudgetAtMost(rounds[0].before, cap, rivals);
      assert false;
    }
  }

  lemma EnoughTicks(p: nat, cap: nat, batch: nat)
    requires batch > 0
    ensures p * cap / batch >= 0 && Times(p * cap / batch, batch) + batch > Times(p, cap)
  {
    var n := p * cap;
    TimesIsProduct(p, cap);
    TimesIsProduct(n / batch, batch);
    assert n == n / batch * batch + n % batch;
  }

  /** Bounded delay: whatever publishes fail, a claimable row with p rivals is attempted within
      p * cap / batch + 1 ticks. */
  lemma BoundedDelay(batch: nat, cap: nat, row: Id, rivals: seq<Id>, rounds: seq<Round>)
    requires batch > 0 && |rounds| > 0 && |rounds| > |rivals| * cap / batch
    requires Claimable(rounds[0].before, cap, row)
    requires Ticks(batch, cap, rounds[0].before[row].createdAt, rounds)
    requires Distinct(rivals)
    requires forall id :: id in rivals <==> id in rounds[0].before && Rival(rounds[0].before, cap, row, id)
    ensures exists k | 0 <= k <= |rivals| * cap / batch :: row in rounds[k].attempted
  {
    EnoughTicks(|rivals|, cap, batch);
    AttemptedBy(batch, cap, row, rivals, |rivals| * cap / batch, rounds);
  }
}
