/**
 The distributed lock of lock/redis_lock.go: one Redis key that is set if absent with a time to live,
 deleted or re-expired by scripts that compare its value with the caller's token.

 Every command names one key, so the model is of one key. Times are milliseconds of the server's
 clock; an extension is a duration in nanoseconds, as the caller gives it. A client is a RedisLock
 object and is known by its token, a random UUID.
 */
module RedisLocks {
  import opened Common

  /** A millisecond, in the nanoseconds of Go's time.Duration. */
  const MILLISECOND := 1_000_000

  type Token = nat

  datatype Entry = Entry(token: Token, expires: int)

  // ----- the commands, each atomic on the server

  /** The key exists: it is gone from the instant it expires. */
  predicate Live(entry: Option<Entry>, now: int) {
    entry.Some? && now < entry.value.expires
  }

  predicate HeldBy(entry: Option<Entry>, token: Token, now: int) {
    Live(entry, now) && entry.value.token == token
  }

  function SetNX(entry: Option<Entry>, token: Token, ttl: int, now: int): Option<Entry> {
    if Live(entry, now) then entry else Some(Entry(token, now + ttl))
  }

  /** The script of Release. */
  function CompareAndDelete(entry: Option<Entry>, token: Token, now: int): Option<Entry> {
    if HeldBy(entry, token, now) then None else entry
  }

  /** Duration.Milliseconds: the division truncates toward zero. */
  function Milliseconds(duration: int): (ms: int)
    ensures ms > 0 <==> duration >= MILLISECOND
    ensures ms * MILLISECOND - MILLISECOND < duration < ms * MILLISECOND + MILLISECOND
  {
    if duration >= 0 then duration / MILLISECOND else -(-duration / MILLISECOND)
  }

  /** The script of Extend, on whole milliseconds. PEXPIRE with a time that is not positive deletes the
      key. */
  function CompareAndExpire(entry: Option<Entry>, token: Token, extension: int, now: int): Option<Entry> {
    if !HeldBy(entry, token, now) then entry
    else if Milliseconds(extension) <= 0 then None
    else Some(Entry(token, now + Milliseconds(extension)))
  }

  // ----- histories

  datatype Event =
    | Acquire(c: Token, ttl: int, ok: bool, at: int)
    | Release(c: Token, ok: bool, at: int)
    | Prolong(c: Token, extension: int, ok: bool, at: int)

  predicate Enabled(entry: Option<Entry>, e: Event) {
    match e
    case Acquire(_, ttl, ok, at) => ttl > 0 && ok == !Live(entry, at)
    case Release(c, ok, at) => ok == HeldBy(entry, c, at)
    case Prolong(c, _, ok, at) => ok == HeldBy(entry, c, at)
  }

  function Step(entry: Option<Entry>, e: Event): Option<Entry> {
    match e
    case Acquire(c, ttl, _, at) => SetNX(entry, c, ttl, at)
    case Release(c, _, at) => CompareAndDelete(entry, c, at)
    case Prolong(c, extension, _, at) => CompareAndExpire(entry, c, extension, at)
  }

  function Run(h: seq<Event>): Option<Entry> {
    if h == [] then None else Step(Run(Front(h)), Last(h))
  }

  predicate Legal(h: seq<Event>) {
    h == [] || (Legal(Front(h)) && Enabled(Run(Front(h)), Last(h)))
  }

  predicate Monotone(h: seq<Event>) {
    forall i, j | 0 <= i < j < |h| :: h[i].at <= h[j].at
  }

  /** Until when a client may believe it holds the lock, from its own calls and their answers alone:
      the deadline of its latest successful Acquire or Extend, unless it has released since. */
  function ValidUntil(h: seq<Event>, c: Token): Option<int> {
    if h == [] then None
    else if Last(h).c != c then ValidUntil(Front(h), c)
    else match Last(h)
      case Acquire(_, ttl, ok, at) => if ok then Some(at + ttl) else ValidUntil(Front(h), c)
      case Release(_, _, _) => None
      case Prolong(_, extension, ok, at) =>
        if !ok then ValidUntil(Front(h), c) else Some(at + Milliseconds(extension))
  }

  predicate Believes(h: seq<Event>, c: Token, now: int) {
    ValidUntil(h, c).Some? && now < ValidUntil(h, c).value
  }

  lemma {:induction false} BelieverHolds(h: seq<Event>, c: Token, now: int)
    requires Legal(h) && Monotone(h) && Believes(h, c, now)
    requires h != [] ==> Last(h).at <= now
    ensures Run(h) == Some(Entry(c, ValidUntil(h, c).value))
  {
    if h != [] {
      var p, e := Front(h), Last(h);
      if p != [] {
        assert h[|h| - 2].at <= h[|h| - 1].at;
      }
      if ValidUntil(p, c) == ValidUntil(h, c) {
        BelieverHolds(p, c, e.at);
      }
    }
  }

  lemma {:induction false} HolderBelieves(h: seq<Event>, c: Token, now: int)
    requires Legal(h) && Monotone(h) && HeldBy(Run(h), c, now)
    requires h != [] ==> Last(h).at <= now
    ensures ValidUntil(h, c) == Some(Run(h).value.expires)
  {
    var p, e := Front(h), Last(h);
    if p != [] {
      assert h[|h| - 2].at <= h[|h| - 1].at;
    }
    if Run(p) == Run(h) {
      HolderBelieves(p, c, e.at);
    }
  }

  /** In every timed run the client in the key is exactly the one inside its validity, and the key expires
      when the validity ends. */
  lemma HoldsExactly(h: seq<Event>, c: Token, now: int)
    requires Legal(h) && Monotone(h) && (h != [] ==> Last(h).at <= now)
    ensures HeldBy(Run(h), c, now) <==> Believes(h, c, now)
    ensures HeldBy(Run(h), c, now) ==> Run(h).value.expires == ValidUntil(h, c).value
  {
    if HeldBy(Run(h), c, now) {
      HolderBelieves(h, c, now);
    } else if Believes(h, c, now) {
      BelieverHolds(h, c, now);
    }
  }

  /** So at most one client is inside its validity at any time. */
  lemma SoleHolder(h: seq<Event>, c: Token, d: Token, now: int)
    requires Legal(h) && Monotone(h) && (h != [] ==> Last(h).at <= now)
    requires Believes(h, c, now) && Believes(h, d, now)
    ensures c == d
  {
    BelieverHolds(h, c, now);
    BelieverHolds(h, d, now);
  }

  /** While one client is inside its validity, every call of every other client is refused and changes
      nothing. */
  lemma OthersChangeNothing(h: seq<Event>, c: Token, e: Event)
    requires Legal(h) && Monotone(h) && Enabled(Run(h), e) && (h != [] ==> Last(h).at <= e.at)
    requires e.c != c && Believes(h, c, e.at)
    ensures !e.ok && Run(h + [e]) == Run(h) && ValidUntil(h + [e], c) == ValidUntil(h, c)
  {
    Extend(h, e);
    BelieverHolds(h, c, e.at);
  }

  ghost predicate SomeoneBelieves(h: seq<Event>, at: int) {
    exists d :: Believes(h, d, at)
  }

  /** Every answer, from what the clients themselves have been told: an Acquire is granted exactly when nobody
      is inside its validity, a Release or an Extend exactly to the one who is. */
  lemma AnswersExactly(h: seq<Event>, c: Token, amount: int, at: int)
    requires Legal(h) && Monotone(h) && (h != [] ==> Last(h).at <= at)
    ensures forall ok :: amount > 0 ==> (Enabled(Run(h), Acquire(c, amount, ok, at)) <==> ok == !SomeoneBelieves(h, at))
    ensures forall ok :: Enabled(Run(h), Release(c, ok, at)) <==> ok == Believes(h, c, at)
    ensures forall ok :: Enabled(Run(h), Prolong(c, amount, ok, at)) <==> ok == Believes(h, c, at)
  {
    HoldsExactly(h, c, at);
    if Live(Run(h), at) {
      HoldsExactly(h, Run(h).value.token, at);
      assert SomeoneBelieves(h, at);
    } else if d :| Believes(h, d, at) {
      HoldsExactly(h, d, at);
      assert false;
    }
  }

  // ----- Extend

  lemma {:induction false} LatestCall(h: seq<Event>, i: nat)
    requires i < |h| && h[i].ok && !h[i].Release?
    requires forall k | i < k < |h| :: h[k].c != h[i].c
    ensures ValidUntil(h, h[i].c) ==
            Some(h[i].at + if h[i].Acquire? then h[i].ttl else Milliseconds(h[i].extension))
  {
    if i < |h| - 1 {
      LatestCall(Front(h), i);
    }
  }

  /** Until its next call, a client whose Extend has answered ok holds the lock exactly for the whole
      milliseconds of the extension. So at the time of the answer it holds it if and only if the extension
      is at least one millisecond; if not, it never holds it again by that Extend. */
  lemma {:induction false} ExtendHoldsExactly(h: seq<Event>, i: nat, now: int)
    requires Legal(h) && Monotone(h) && i < |h| && Last(h).at <= now
    requires h[i].Prolong? && h[i].ok && forall k | i < k < |h| :: h[k].c != h[i].c
    ensures HeldBy(Run(h), h[i].c, now) <==> now < h[i].at + Milliseconds(h[i].extension)
    ensures now == h[i].at ==> (HeldBy(Run(h), h[i].c, now) <==> h[i].extension >= MILLISECOND)
    ensures h[i].extension < MILLISECOND ==> !HeldBy(Run(h), h[i].c, now)
  {
    LatestCall(h, i);
    HoldsExactly(h, h[i].c, now);
    assert h[i].at <= h[|h| - 1].at;
  }

  /** Right after an Extend that has answered ok, any other client's Acquire is granted if and only if the
      extension is less than one millisecond. */
  lemma ExtendFreesExactly(h: seq<Event>, e: Event, d: Token, ttl: int)
    requires Legal(h + [e]) && Monotone(h + [e]) && e.Prolong? && e.ok && ttl > 0
    ensures Enabled(Run(h + [e]), Acquire(d, ttl, true, e.at)) <==> e.extension < MILLISECOND
  {
    Extend(h, e);
  }

  /** One more event of a timed run. */
  lemma GoOn(h: seq<Event>, e: Event) returns (n: seq<Event>)
    requires Legal(h) && Monotone(h) && Enabled(Run(h), e) && (h != [] ==> Last(h).at <= e.at)
    ensures Legal(n) && Monotone(n) && Run(n) == Step(Run(h), e)
    ensures |n| == |h| + 1 && n[..|h|] == h && n[|h|] == e && Last(n) == e
  {
    n := h + [e];
    Extend(h, e);
    if h != [] {
      forall i, j | 0 <= i < j < |n| ensures n[i].at <= n[j].at {
        assert h[i].at <= Last(h).at;
      }
    }
  }

  /** A run in which an Extend answers ok and another client acquires the lock at once. */
  lemma ExtendLosesTheLock() returns (h: seq<Event>)
    ensures Legal(h) && Monotone(h) && |h| == 3
    ensures h[0] == Acquire(1, 10, true, 0) && h[1] == Prolong(1, 500_000, true, 1)
    ensures h[2] == Acquire(2, 10, true, 1)
  {
    h := GoOn([], Acquire(1, 10, true, 0));
    h := GoOn(h, Prolong(1, 500_000, true, 1));
    h := GoOn(h, Acquire(2, 10, true, 1));
    assert h[..2][..1] == h[..1];
  }

  // ----- WithLock

  /** Events `i` and `j` are the Acquire and the Release of one WithLock call whose body ended within
      its time to live. */
  predicate Body(h: seq<Event>, i: nat, j: nat) {
    && i < j < |h|
    && h[i].Acquire? && h[i].ok && h[j].Release? && h[j].c == h[i].c
    && (forall k | i < k < j :: h[k].c != h[i].c)
    && h[j].at < h[i].at + h[i].ttl
  }

  lemma {:induction false} LegalPrefix(h: seq<Event>, k: nat)
    requires Legal(h) && k <= |h|
    ensures Legal(h[..k])
    ensures k < |h| ==> Enabled(Run(h[..k]), h[k])
  {
    if k == |h| {
      assert h[..k] == h;
    } else {
      LegalPrefix(Front(h), k);
      assert h[..k] == Front(h)[..k];
      if k == |h| - 1 {
        assert h[..k] == Front(h);
      }
    }
  }

  lemma NotInside(h: seq<Event>, i: nat, j: nat, k: nat)
    requires Legal(h) && Monotone(h) && Body(h, i, j) && i < k < j
    ensures !(h[k].Acquire? && h[k].ok)
  {
    LegalPrefix(h, k);
    LatestCall(h[..k], i);
    assert h[k].at <= h[j].at && h[k - 1].at <= h[k].at;
    BelieverHolds(h[..k], h[i].c, h[k].at);
  }

  /** Two bodies on one key that end within their time to live never overlap. */
  lemma BodiesDisjoint(h: seq<Event>, i: nat, j: nat, k: nat, l: nat)
    requires Legal(h) && Monotone(h) && Body(h, i, j) && Body(h, k, l) && i != k
    ensures j < k || l < i
  {
    if i < k < j {
      NotInside(h, i, j, k);
    } else if k < i < l {
      NotInside(h, k, l, i);
    }
  }

  /** A body that outlives its time to live can overlap another: the bound is needed. */
  lemma OverrunOverlaps() returns (h: seq<Event>)
    ensures Legal(h) && Monotone(h) && |h| == 4
    ensures h[0].Acquire? && h[0].ok && h[3].Release? && h[3].c == h[0].c
    ensures Body(h, 1, 2) && h[1].c != h[0].c
  {
    h := GoOn([], Acquire(1, 10, true, 0));
    h := GoOn(h, Acquire(2, 10, true, 10));
    h := GoOn(h, Release(2, true, 11));
    h := GoOn(h, Release(1, false, 12));
    assert h[..3][..2] == h[..2] && h[..2][..1] == h[..1];
  }

  // ----- the objects

  class Server {
    var entry: Option<Entry>
    var now: int

    /** Time passes and other clients run their commands; none of them knows `token`. */
    method Others(token: Token, delay: nat)
      modifies this
      ensures now >= old(now) + delay
      ensures entry.Some? && entry.value.token == token ==> entry == old(entry)
      ensures old(HeldBy(entry, token, now)) && now < old(entry).value.expires ==> entry == old(entry)
    {
      var passed: int := *;
      now := now + Max(delay, passed);
      if !HeldBy(entry, token, now) {
        var other: Option<Entry> := *;
        if !(other.Some? && other.value.token == token) {
          entry := other;
        }
      }
    }
  }

  datatype Outcome = Acquired | NotAcquired | Cancelled | Failed

  /** What happens to the attempts of one AcquireWithRetry, from 1: which commands fail and during which waits
      the context ends. */
  datatype Script = Script(unreachable: nat -> bool, doneWaiting: nat -> bool)

  /** What the caller may rely on when its attempts have met the key live or not as `met` says: every attempt
      but the last was answered, met a live key and was followed by a wait that the context outlived; and the
      result is the one that the last attempt or the end of the attempts gave. */
  predicate Explains(s: Script, met: seq<bool>, maxRetries: int, r: Outcome, attempts: nat) {
    && attempts == |met| <= Max(maxRetries, 0)
    && (forall k | 1 <= k < attempts :: !s.unreachable(k) && !s.doneWaiting(k))
    && (forall k | 0 <= k < attempts - 1 :: met[k])
    && match r
       case Failed => attempts > 0 && s.unreachable(attempts)
       case Acquired => attempts > 0 && !s.unreachable(attempts) && !met[attempts - 1]
       case Cancelled => attempts > 0 && !s.unreachable(attempts) && met[attempts - 1] && s.doneWaiting(attempts)
       case NotAcquired =>
         && attempts == Max(maxRetries, 0)
         && (attempts > 0 ==> !s.unreachable(attempts) && met[attempts - 1] && !s.doneWaiting(attempts))
  }

  /** That leaves no choice: with the script and what the attempts meet, result and number are determined. */
  lemma ExplanationUnique(s: Script, met: seq<bool>, met': seq<bool>, maxRetries: int, r: Outcome, r': Outcome, n: nat, n': nat)
    requires Explains(s, met, maxRetries, r, n) && Explains(s, met', maxRetries, r', n')
    requires met <= met' || met' <= met
    ensures r == r' && n == n'
  {
  }

  class RedisLock {
    const server: Server
    const token: Token
    const ttl: int

    constructor (server: Server, token: Token, ttl: int)
      ensures this.server == server && this.token == token && this.ttl == ttl
    {
      this.server, this.token, this.ttl := server, token, ttl;
    }

    method TryAcquire() returns (ok: bool)
      modifies server
      ensures server.now == old(server.now)
      ensures ok == !Live(old(server.entry), server.now)
      ensures server.entry == SetNX(old(server.entry), token, ttl, server.now)
    {
      ok := !(server.entry.Some? && server.now < server.entry.value.expires);
      if ok {
        server.entry := Some(Entry(token, server.now + ttl));
      }
    }

    /** At most `maxRetries` attempts, each when the script and the keys met before leave it to be made; the
        first meets the key as it is when called. Success means that the key now holds this token for a whole
        time to live, and any other outcome leaves this token where it was: out of the key. */
    method AcquireWithRetry(maxRetries: int, retryDelay: nat, s: Script)
      returns (r: Outcome, ghost attempts: nat, ghost met: seq<bool>)
      modifies server
      ensures Explains(s, met, maxRetries, r, attempts)
      ensures attempts > 0 ==> met[0] == Live(old(server.entry), old(server.now))
      ensures maxRetries > 0 && !s.unreachable(1) && !Live(old(server.entry), old(server.now)) ==>
                r == Acquired && attempts == 1
      ensures r.Acquired? ==> server.entry == Some(Entry(token, server.now + ttl))
      ensures !r.Acquired? && !old(server.entry.Some? && server.entry.value.token == token) ==>
                !(server.entry.Some? && server.entry.value.token == token)
      ensures attempts <= 1 && r != Acquired && r != NotAcquired ==>
                server.entry == old(server.entry) && server.now == old(server.now)
      ensures maxRetries <= 0 ==> server.entry == old(server.entry) && server.now == old(server.now)
      ensures server.now >= old(server.now)
    {
      attempts, met := 0, [];
      var i := 0;
      while i < maxRetries
        invariant 0 <= i <= Max(maxRetries, 0) && attempts == i == |met|
        invariant forall k | 1 <= k <= i :: !s.unreachable(k) && !s.doneWaiting(k)
        invariant forall k | 0 <= k < i :: met[k]
        invariant i > 0 ==> met[0] == Live(old(server.entry), old(server.now))
        invariant server.now >= old(server.now)
        invariant !old(server.entry.Some? && server.entry.value.token == token) ==>
                    !(server.entry.Some? && server.entry.value.token == token)
        invariant i == 0 ==> server.entry == old(server.entry) && server.now == old(server.now)
      {
        ghost var live := Live(server.entry, server.now);
        attempts, met := attempts + 1, met + [live];
        if s.unreachable(i + 1) {
          return Failed, attempts, met;
        }
        var ok := TryAcquire();
        if ok {
          return Acquired, attempts, met;
        }
        if s.doneWaiting(i + 1) {
          return Cancelled, attempts, met;
        }
        server.Others(token, retryDelay);
        i := i + 1;
      }
      r := NotAcquired;
    }

    method ReleaseLock() returns (ok: bool)
      modifies server
      ensures server.now == old(server.now)
      ensures ok == HeldBy(old(server.entry), token, server.now)
      ensures server.entry == CompareAndDelete(old(server.entry), token, server.now)
    {
      ok := server.entry.Some? && server.now < server.entry.value.expires && server.entry.value.token == token;
      if ok {
        server.entry := None;
      }
    }

    method ExtendLock(extension: int) returns (ok: bool)
      modifies server
      ensures server.now == old(server.now)
      ensures ok == HeldBy(old(server.entry), token, server.now)
      ensures ok ==> (HeldBy(server.entry, token, server.now) <==> extension >= MILLISECOND)
      ensures server.entry == CompareAndExpire(old(server.entry), token, extension, server.now)
    {
      ok := server.entry.Some? && server.now < server.entry.value.expires && server.entry.value.token == token;
      if ok {
        var ms := Milliseconds(extension);
        server.entry := if ms <= 0 then None else Some(Entry(token, server.now + ms));
      }
    }
  }
}
