/**
 From the outbox row to the consumer: processEvent publishes a row under its own id, the broker delivers
 each message to a durable consumer at most MaxDeliver times, and consumers claim (message id, consumer).
 One history interleaves the processors' steps with the statements of every consumer's deliveries.
 */
module Deliveries {
  import opened Common
  import O = Outboxes
  import I = Idempotency

  datatype Event =
    | Publishing(p: O.Event)
    | Consuming(id: O.Id, consumer: string, c: I.Event)

  function OutboxSide(h: seq<Event>): seq<O.Event> {
    if h == [] then []
    else OutboxSide(Front(h)) + if Last(h).Publishing? then [Last(h).p] else []
  }

  function ConsumerSide(h: seq<Event>, id: O.Id, consumer: string): seq<I.Event> {
    if h == [] then []
    else ConsumerSide(Front(h), id, consumer)
         + if Last(h).Consuming? && Last(h).id == id && Last(h).consumer == consumer then [Last(h).c] else []
  }

  predicate Delivers(h: seq<Event>, e: Event, maxDeliver: nat) {
    e.Consuming? && (e.c.ReadClock? || e.c.CheckAndMark?) ==>
      I.Asked(ConsumerSide(h, e.id, e.consumer)) < Times(O.Hands(OutboxSide(h), e.id), maxDeliver)
  }

  /** Both sides follow their protocols, and a consumer is given a row at most `maxDeliver` times for each
      time that the row has been handed to the broker, whatever the broker answered. */
  ghost predicate Legal(h: seq<Event>, maxDeliver: nat) {
    && O.Legal(OutboxSide(h))
    && (forall id, consumer :: I.Legal(ConsumerSide(h, id, consumer)))
    && (h == [] || (Legal(Front(h), maxDeliver) && Delivers(Front(h), Last(h), maxDeliver)))
  }

  lemma {:induction false} TimesGrows(m: nat, n: nat, d: nat)
    requires m <= n
    ensures Times(m, d) <= Times(n, d)
  {
    if m < n {
      TimesGrows(m, n - 1, d);
    }
  }

  lemma SidesGrow(h: seq<Event>, id: O.Id, consumer: string)
    requires h != []
    ensures O.Hands(OutboxSide(Front(h)), id) <= O.Hands(OutboxSide(h), id)
    ensures I.Asked(ConsumerSide(h, id, consumer)) == I.Asked(ConsumerSide(Front(h), id, consumer))
              + Hit(Last(h).Consuming? && Last(h).id == id && Last(h).consumer == consumer
                    && (Last(h).c.ReadClock? || Last(h).c.CheckAndMark?))
  {
    var e, o, c := Last(h), OutboxSide(Front(h)), ConsumerSide(Front(h), id, consumer);
    assert o + [] == o && c + [] == c;
    if e.Publishing? {
      Extend(o, e.p);
    } else {
      Extend(c, e.c);
    }
  }

  lemma {:induction false} AskedPaid(h: seq<Event>, maxDeliver: nat, id: O.Id, consumer: string)
    requires Legal(h, maxDeliver)
    ensures I.Asked(ConsumerSide(h, id, consumer)) <= Times(O.Hands(OutboxSide(h), id), maxDeliver)
  {
    if h != [] {
      AskedPaid(Front(h), maxDeliver, id, consumer);
      SidesGrow(h, id, consumer);
      TimesGrows(O.Hands(OutboxSide(Front(h)), id), O.Hands(OutboxSide(h), id), maxDeliver);
    }
  }

  /** End to end, over every interleaving of processors and consumers with rollbacks and redeliveries: the
      handler of a consumer is put to work on a row at most MaxDeliver times for each attempt that the cap
      allows and each rollback of a processor that held the row. */
  lemma HandlingBounded(h: seq<Event>, maxDeliver: nat, cap: nat, id: O.Id, consumer: string)
    requires Legal(h, maxDeliver) && O.CapsAtMost(OutboxSide(h), cap)
    ensures I.HandlerRuns(ConsumerSide(h, id, consumer)) <= (cap + O.Rollbacks(OutboxSide(h), id)) * maxDeliver
  {
    var most := cap + O.Rollbacks(OutboxSide(h), id);
    assert I.Legal(ConsumerSide(h, id, consumer));
    I.HandlerRunsAsked(ConsumerSide(h, id, consumer));
    AskedPaid(h, maxDeliver, id, consumer);
    O.HandsBounded(OutboxSide(h), cap, id);
    TimesGrows(O.Hands(OutboxSide(h), id), most, maxDeliver);
    TimesIsProduct(most, maxDeliver);
  }

  /** Of those handler runs at most one succeeds, plus the ones lost to a crash between success and Complete,
      as long as no delivery takes over from a handler at work; and nothing is handled that was never handed
      to the broker. */
  lemma AtMostOneSuccessPerConsumer(h: seq<Event>, maxDeliver: nat, id: O.Id, consumer: string)
    requires Legal(h, maxDeliver)
    ensures var c := ConsumerSide(h, id, consumer);
            I.Unhurried(c) && !I.EverTakenOver(c) ==> I.Successes(c) <= 1 + I.LostSuccesses(c)
    ensures I.Successes(ConsumerSide(h, id, consumer)) <= I.HandlerRuns(ConsumerSide(h, id, consumer))
    ensures O.Hands(OutboxSide(h), id) == 0 ==> I.HandlerRuns(ConsumerSide(h, id, consumer)) == 0
  {
    var c := ConsumerSide(h, id, consumer);
    if I.Unhurried(c) && !I.EverTakenOver(c) {
      I.SuccessesUntilTakeover(c);
    }
    I.SuccessesAreRuns(c);
    I.HandlerRunsAsked(c);
    AskedPaid(h, maxDeliver, id, consumer);
  }
}
