/** The inbox and the billing facts together: what reaches the store when events go through leases, crashes and
    retries. */
module InboxDelivery {
  import opened Wrappers
  import I = WebhookInbox
  import B = BillingFacts
  import P = BillingProjection

  /** What the handler of each event works on when its transaction commits: an event only names a subscription or an
      order, and every attempt fetches it from the provider anew. */
  type Payloads = map<I.EventId, B.Event>

  datatype Service = Service(rows: I.Rows, store: P.Store)

  /** A handler that throws rolls its transaction back: neither the facts nor the event's row change. */
  function Deliver(s: Service, step: I.Step, payloads: Payloads, c: I.Config, catalog: P.Catalog,
                   graceMs: nat): Service {
    if step.Commit? && I.Holds(s.rows, step.id, step.owner) && step.id in payloads then
      var r := B.TryApply(s.store, payloads[step.id], catalog, graceMs);
      if r.Ok? then Service(I.Apply(s.rows, step, c), r.value) else s
    else if step.Commit? then s
    else s.(rows := I.Apply(s.rows, step, c))
  }

  function Run(s: Service, steps: seq<I.Step>, payloads: Payloads, c: I.Config, catalog: P.Catalog,
               graceMs: nat): Service {
    if steps == [] then s
    else Deliver(Run(s, steps[..|steps| - 1], payloads, c, catalog, graceMs), steps[|steps| - 1], payloads, c, catalog,
                 graceMs)
  }

  predicate Processed(s: Service, id: I.EventId) {
    id in s.rows && s.rows[id].state == I.Processed
  }

  /** The events whose transactions committed, in the order in which they did. */
  function Committed(s: Service, steps: seq<I.Step>, payloads: Payloads, c: I.Config, catalog: P.Catalog,
                     graceMs: nat): seq<I.EventId> {
    if steps == [] then []
    else
      var before, last := Run(s, steps[..|steps| - 1], payloads, c, catalog, graceMs), steps[|steps| - 1];
      Committed(s, steps[..|steps| - 1], payloads, c, catalog, graceMs)
      + if !Processed(before, last.id) && Processed(Deliver(before, last, payloads, c, catalog, graceMs), last.id)
      then [last.id] else []
  }

  function EventsOf(ids: seq<I.EventId>, payloads: Payloads): seq<B.Event>
    requires forall id <- ids :: id in payloads
  {
    if ids == [] then [] else EventsOf(ids[..|ids| - 1], payloads) + [payloads[ids[|ids| - 1]]]
  }

  lemma DeliverCommits(s: Service, step: I.Step, payloads: Payloads, c: I.Config, catalog: P.Catalog, graceMs: nat)
    ensures var after := Deliver(s, step, payloads, c, catalog, graceMs);
            && (forall id | id != step.id :: Processed(after, id) <==> Processed(s, id))
            && (Processed(s, step.id) ==> Processed(after, step.id) && after.store == s.store)
            && (if !Processed(s, step.id) && Processed(after, step.id)
                then step.id in payloads && after.store == B.Apply(s.store, payloads[step.id], catalog, graceMs)
                else after.store == s.store)
  {
    hide B.TryApply, I.RetryDelay, I.NextAttempt;
  }

  /** Every event at most once, exactly the processed ones, and the store is the fold of their payloads. */
  ghost predicate FoldsInto(ids: seq<I.EventId>, s: Service, store: P.Store, payloads: Payloads, catalog: P.Catalog,
                            graceMs: nat) {
    && (forall i, j | 0 <= i < j < |ids| :: ids[i] != ids[j])
    && (forall id :: id in ids <==> Processed(s, id))
    && (forall id <- ids :: id in payloads)
    && s.store == B.Run(store, EventsOf(ids, payloads), catalog, graceMs)
  }

  lemma FoldStep(ids: seq<I.EventId>, s: Service, store: P.Store, step: I.Step, payloads: Payloads, c: I.Config,
                 catalog: P.Catalog, graceMs: nat)
    requires FoldsInto(ids, s, store, payloads, catalog, graceMs)
    ensures var after := Deliver(s, step, payloads, c, catalog, graceMs);
            FoldsInto(ids + if !Processed(s, step.id) && Processed(after, step.id) then [step.id] else [], after, store,
                      payloads, catalog, graceMs)
  {
    hide Deliver, Processed, B.Apply, B.Run, EventsOf;
    DeliverCommits(s, step, payloads, c, catalog, graceMs);
    if !Processed(s, step.id) && Processed(Deliver(s, step, payloads, c, catalog, graceMs), step.id) {
      EventsNext(ids, step.id, payloads);
      FoldNext(store, EventsOf(ids, payloads), payloads[step.id], catalog, graceMs);
    } else {
      assert ids + [] == ids;
    }
  }

  /** A handler's transaction commits exactly for the worker that still holds the event and when its payload can be
      applied to the store as it is then: event and store change together, or neither does. */
  lemma DeliveredExactly(s: Service, id: I.EventId, owner: I.Owner, now: I.Time, payloads: Payloads, c: I.Config,
                         catalog: P.Catalog, graceMs: nat)
    requires id in payloads
    ensures var after := Deliver(s, I.Commit(id, owner, now), payloads, c, catalog, graceMs);
            var r := B.TryApply(s.store, payloads[id], catalog, graceMs);
            if id in s.rows && s.rows[id].state == I.Processing && s.rows[id].owner == Some(owner) && r.Ok?
            then after.store == r.value && id in after.rows && after.rows[id].state == I.Processed
                 && after.rows - {id} == s.rows - {id}
            else after == s
  {
    hide B.TryApply, I.RetryDelay, I.NextAttempt;
  }

  lemma RunOfThree(s: Service, a: I.Step, b: I.Step, last: I.Step, payloads: Payloads, c: I.Config, catalog: P.Catalog,
                   graceMs: nat)
    ensures Run(s, [a, b, last], payloads, c, catalog, graceMs)
            == Deliver(Deliver(Deliver(s, a, payloads, c, catalog, graceMs), b, payloads, c, catalog, graceMs), last,
                       payloads, c, catalog, graceMs)
  {
    hide Deliver;
    assert [a, b, last][..2] == [a, b] && [a, b][..1] == [a] && [a][..0] == [];
    assert Run(s, [a], payloads, c, catalog, graceMs) == Deliver(s, a, payloads, c, catalog, graceMs);
    assert Run(s, [a, b], payloads, c, catalog, graceMs)
        == Deliver(Run(s, [a], payloads, c, catalog, graceMs), b, payloads, c, catalog, graceMs);
  }

  /** A new event that is received, claimed and committed reaches the store. */
  lemma ReceivedReachesTheStore(s: Service, id: I.EventId, identity: I.Identity, owner: I.Owner, received: I.Time,
                                claimed: I.Time, committed: I.Time, payloads: Payloads, c: I.Config,
                                catalog: P.Catalog, graceMs: nat)
    requires id !in s.rows && id in payloads && B.TryApply(s.store, payloads[id], catalog, graceMs).Ok?
    ensures var after := Run(s, [I.Receive(id, identity, received), I.Claim(id, owner, claimed),
                                 I.Commit(id, owner, committed)], payloads, c, catalog, graceMs);
            && after.store == B.TryApply(s.store, payloads[id], catalog, graceMs).value
            && id in after.rows && after.rows[id].state == I.Processed && after.rows - {id} == s.rows
  {
    hide B.TryApply, I.RetryDelay, I.NextAttempt, Run;
    RunOfThree(s, I.Receive(id, identity, received), I.Claim(id, owner, claimed), I.Commit(id, owner, committed),
               payloads, c, catalog, graceMs);
  }

  /** Through any interleaving of workers, crashes, failures and requeues, every event's handler runs to commit at
      most once, exactly when its row is PROCESSED, and the store is the fold of just those events in commit order. */
  lemma {:induction false} StoreIsFoldOfProcessed(store: P.Store, steps: seq<I.Step>, payloads: Payloads, c: I.Config,
                                                  catalog: P.Catalog, graceMs: nat)
    ensures var start := Service(map[], store);
            FoldsInto(Committed(start, steps, payloads, c, catalog, graceMs),
                      Run(start, steps, payloads, c, catalog, graceMs), store, payloads, catalog, graceMs)
  {
    var start := Service(map[], store);
    if steps == [] {
      assert Run(start, steps, payloads, c, catalog, graceMs) == start;
    } else {
      hide Deliver, Processed, FoldsInto;
      var before, last := steps[..|steps| - 1], steps[|steps| - 1];
      StoreIsFoldOfProcessed(store, before, payloads, c, catalog, graceMs);
      FoldStep(Committed(start, before, payloads, c, catalog, graceMs),
               Run(start, before, payloads, c, catalog, graceMs), store, last, payloads, c, catalog, graceMs);
    }
  }

  lemma EventsNext(ids: seq<I.EventId>, id: I.EventId, payloads: Payloads)
    requires (forall i <- ids :: i in payloads) && id in payloads
    ensures forall i <- ids + [id] :: i in payloads
    ensures EventsOf(ids + [id], payloads) == EventsOf(ids, payloads) + [payloads[id]]
  {
    assert (ids + [id])[..|ids + [id]| - 1] == ids;
  }

  lemma FoldNext(store: P.Store, events: seq<B.Event>, e: B.Event, catalog: P.Catalog, graceMs: nat)
    ensures B.Run(store, events + [e], catalog, graceMs)
            == B.Apply(B.Run(store, events, catalog, graceMs), e, catalog, graceMs)
  {
    hide B.Apply;
    assert (events + [e])[..|events + [e]| - 1] == events;
  }

  lemma {:induction false} EventsOfMember(ids: seq<I.EventId>, payloads: Payloads, e: B.Event)
    requires (forall id <- ids :: id in payloads) && e in EventsOf(ids, payloads)
    ensures exists id <- ids :: payloads[id] == e
  {
    if ids != [] && e != payloads[ids[|ids| - 1]] {
      EventsOfMember(ids[..|ids| - 1], payloads, e);
    }
  }

  /** End to end, for the events of one subscription: the stored coverage is the greatest one of the processed paid
      orders. */
  lemma {:induction false} CoverageThroughTheInbox(steps: seq<I.Step>, payloads: Payloads, c: I.Config,
                                                   catalog: P.Catalog, graceMs: nat, subscription: string)
    requires forall id <- payloads :: B.About(payloads[id], subscription)
    ensures var empty := P.Store(None, None, map[], {});
            var start := Service(map[], empty);
            var ids := Committed(start, steps, payloads, c, catalog, graceMs);
            && (forall id <- ids :: id in payloads)
            && B.CoversGreatest(Run(start, steps, payloads, c, catalog, graceMs).store.row,
                                B.Delivered(empty, EventsOf(ids, payloads), catalog, graceMs))
  {
    hide B.About, B.Delivered, B.CoversGreatest, Run, Committed, B.Run, EventsOf;
    var empty := P.Store(None, None, map[], {});
    StoreIsFoldOfProcessed(empty, steps, payloads, c, catalog, graceMs);
    var ids := Committed(Service(map[], empty), steps, payloads, c, catalog, graceMs);
    forall e <- EventsOf(ids, payloads) ensures B.About(e, subscription) {
      EventsOfMember(ids, payloads, e);
    }
    B.PaidThroughIsGreatest(empty, EventsOf(ids, payloads), catalog, graceMs, subscription);
  }
}
