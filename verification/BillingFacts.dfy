/** What holds after any delivery of billing events: late, duplicated, reordered or interleaved. */
module BillingFacts {
  import opened Wrappers
  import opened BillingProjection
  import AccessResolver

  datatype Event =
    | SubscriptionEvent(at: Time, revoked: bool, snapshot: ProviderSubscription)
    | OrderEvent(at: Time, order: Order, sub: Option<ProviderSubscription>)

  function TryApply(store: Store, e: Event, catalog: Catalog, graceMs: nat): Result<Store, Error> {
    match e
    case SubscriptionEvent(at, revoked, snapshot) => ApplySnapshot(store, revoked, at, snapshot, catalog, graceMs)
    case OrderEvent(at, order, sub) => UpsertOrder(store, at, order, sub, catalog)
  }

  /** A handler that throws has its transaction rolled back. */
  function Apply(store: Store, e: Event, catalog: Catalog, graceMs: nat): Store {
    var r := TryApply(store, e, catalog, graceMs);
    if r.Ok? then r.value else store
  }

  function Run(store: Store, events: seq<Event>, catalog: Catalog, graceMs: nat): Store {
    if events == [] then store
    else Apply(Run(store, events[..|events| - 1], catalog, graceMs), events[|events| - 1], catalog, graceMs)
  }

  // Every stored row satisfies the constraints of its table: an event that would break one changes nothing.

  lemma ApplyStaysAllowed(store: Store, e: Event, catalog: Catalog, graceMs: nat)
    requires StoredRow(store.row)
    ensures StoredRow(Apply(store, e, catalog, graceMs).row)
  {
    hide ResolveOffer, PendingPlan, SnapshotRow, Replaceable, PaidNextPlan, CheckOrder, PaymentRow, PeriodEnd, Pays,
         PaidRow, RowAllowed;
    if e.OrderEvent? && store.row.Some? {
      InvalidatedStaysAllowed(store.row.value, e.at);
    }
  }

  lemma {:induction false} RunStaysAllowed(store: Store, events: seq<Event>, catalog: Catalog, graceMs: nat)
    requires StoredRow(store.row)
    ensures StoredRow(Run(store, events, catalog, graceMs).row)
  {
    if events != [] {
      hide Apply, RowAllowed;
      var before := events[..|events| - 1];
      RunStaysAllowed(store, before, catalog, graceMs);
      ApplyStaysAllowed(Run(store, before, catalog, graceMs), events[|events| - 1], catalog, graceMs);
    }
  }

  // Grace: always past_due_at + graceMs, and never moved by another past_due event.

  ghost predicate GraceFromPastDue(row: Option<Row>, graceMs: nat) {
    row.Some? && row.value.graceUntil.Some? ==>
      row.value.pastDueAt.Some? && row.value.graceUntil.value == row.value.pastDueAt.value + graceMs
  }

  lemma ApplyKeepsGrace(store: Store, e: Event, catalog: Catalog, graceMs: nat)
    requires GraceFromPastDue(store.row, graceMs)
    ensures GraceFromPastDue(Apply(store, e, catalog, graceMs).row, graceMs)
  {
    hide ResolveOffer, PendingPlan, NormalizeStatus, Replaceable, PaidNextPlan, CheckOrder, PaymentRow, PeriodEnd, Pays;
  }

  lemma {:induction false} RunKeepsGrace(store: Store, events: seq<Event>, catalog: Catalog, graceMs: nat)
    requires GraceFromPastDue(store.row, graceMs)
    ensures GraceFromPastDue(Run(store, events, catalog, graceMs).row, graceMs)
  {
    if events != [] {
      var before := events[..|events| - 1];
      RunKeepsGrace(store, before, catalog, graceMs);
      ApplyKeepsGrace(Run(store, before, catalog, graceMs), events[|events| - 1], catalog, graceMs);
    }
  }

  /** Snapshots that do not revoke, past_due or not, leave a started grace period exactly where it is. */
  lemma {:induction false} StartedGraceNeverMoves(store: Store, events: seq<Event>, catalog: Catalog, graceMs: nat)
    requires store.row.Some? && store.row.value.pastDueAt.Some? && store.row.value.graceUntil.Some?
    requires forall e <- events :: e.SubscriptionEvent? && !e.revoked
    ensures var row := Run(store, events, catalog, graceMs).row;
            && row.Some? && row.value.pastDueAt == store.row.value.pastDueAt
            && row.value.graceUntil == store.row.value.graceUntil
  {
    if events != [] {
      hide ResolveOffer, PendingPlan, NormalizeStatus, Replaceable, UpsertOrder;
      assert events[|events| - 1] in events;
      StartedGraceNeverMoves(store, events[..|events| - 1], catalog, graceMs);
    }
  }

  /** The stored row as the access resolver reads it, under a catalog that knows its plan. */
  ghost function AccessView(row: Row): AccessResolver.Subscription {
    AccessResolver.Subscription(
      Some(row.planId), row.paidThrough, row.pastDueAt, row.graceUntil, row.invalidatedAt,
      AccessResolver.Reported(row.status, row.invalidationReason, row.periodEnd, row.endedAt, row.cancelAtPeriodEnd,
                              row.next.planId, row.next.interval, row.next.effectiveAt))
  }

  /** After any delivery, grace access is granted only inside [past_due_at, past_due_at + graceMs). */
  lemma GraceAccessIsBounded(events: seq<Event>, catalog: Catalog, graceMs: nat, t: int)
    requires var row := Run(Store(None, None, map[], {}), events, catalog, graceMs).row;
             && row.Some?
             && var source := AccessResolver.CommercialSource(AccessView(row.value), t);
                source.Some? && source.value.Commercial? && source.value.mode.Grace?
    ensures var row := Run(Store(None, None, map[], {}), events, catalog, graceMs).row.value;
            row.pastDueAt.Some? && row.pastDueAt.value <= t < row.pastDueAt.value + graceMs
  {
    hide Run;
    RunKeepsGrace(Store(None, None, map[], {}), events, catalog, graceMs);
  }

  // Paid coverage of one subscription.

  ghost predicate About(e: Event, id: string) {
    match e
    case SubscriptionEvent(_, _, snapshot) => snapshot.id == id
    case OrderEvent(_, order, _) => order.subscriptionId == Some(id)
  }

  /** Coverage end and plan of a paid order, when its handler committed. */
  ghost function Coverage(store: Store, e: Event, catalog: Catalog, graceMs: nat): seq<(Time, string)> {
    if e.OrderEvent? && PaidFor(e.order) && UpsertOrder(store, e.at, e.order, e.sub, catalog).Ok?
    then [(PeriodEnd(e.order, e.sub).value, CheckOrder(e.order, e.sub, catalog).value.planId)]
    else []
  }

  /** What the row covered before, then every committed paid order. */
  ghost function Delivered(store: Store, events: seq<Event>, catalog: Catalog, graceMs: nat): seq<(Time, string)> {
    if events == [] then
      if store.row.Some? && store.row.value.paidThrough.Some?
         then [(store.row.value.paidThrough.value, store.row.value.planId)] else []
    else
      var before := events[..|events| - 1];
      Delivered(store, before, catalog, graceMs)
      + Coverage(Run(store, before, catalog, graceMs), events[|events| - 1], catalog, graceMs)
  }

  /** The row covers up to the greatest delivered end, on the plan of an order with that end. */
  ghost predicate CoversGreatest(row: Option<Row>, delivered: seq<(Time, string)>) {
    if delivered == [] then CoveredUntil(row) == -1
    else
      && row.Some? && row.value.paidThrough.Some?
      && (row.value.paidThrough.value, row.value.planId) in delivered
      && forall c <- delivered :: c.0 <= row.value.paidThrough.value
  }

  lemma SnapshotKeepsCoverage(store: Store, e: Event, catalog: Catalog, graceMs: nat, id: string)
    requires e.SubscriptionEvent? && About(e, id) && OwnRow(store.row, id)
    ensures var row := Apply(store, e, catalog, graceMs).row;
            && OwnRow(row, id) && CoveredUntil(row) == CoveredUntil(store.row)
            && (CoveredUntil(store.row) > -1 ==> row.Some? && row.value.planId == store.row.value.planId)
  {
    hide ResolveOffer, PendingPlan, NormalizeStatus;
  }

  lemma OrderAdvancesCoverage(store: Store, e: Event, catalog: Catalog, graceMs: nat, id: string)
    requires e.OrderEvent? && About(e, id) && OwnRow(store.row, id)
    ensures var row := Apply(store, e, catalog, graceMs).row;
            var added := Coverage(store, e, catalog, graceMs);
            && OwnRow(row, id) && |added| <= 1
            && (if added != [] && added[0].0 >= CoveredUntil(store.row)
                then row.Some? && row.value.paidThrough == Some(added[0].0) && row.value.planId == added[0].1
                else CoveredUntil(row) == CoveredUntil(store.row)
                     && (store.row.Some? ==> row.Some? && row.value.planId == store.row.value.planId))
  {
    hide ResolveOffer, PaidNextPlan, PaymentRow, PeriodEnd, Pays, PeriodValid, CurrencyValid, PaidFor, FullRefund;
    PaysOrRefunds(e.order);
    StatusExactly(e.order);
  }

  lemma {:induction false} PaidThroughIsGreatest(store: Store, events: seq<Event>, catalog: Catalog, graceMs: nat,
                                                 id: string)
    requires OwnRow(store.row, id) && forall e <- events :: About(e, id)
    ensures var row := Run(store, events, catalog, graceMs).row;
            OwnRow(row, id) && CoversGreatest(row, Delivered(store, events, catalog, graceMs))
  {
    if events != [] {
      hide Apply, Coverage, About, OwnRow;
      var before, e := events[..|events| - 1], events[|events| - 1];
      assert e in events;
      PaidThroughIsGreatest(store, before, catalog, graceMs, id);
      var s := Run(store, before, catalog, graceMs);
      if e.SubscriptionEvent? {
        SnapshotKeepsCoverage(s, e, catalog, graceMs, id);
        NoCoverage(s, e, catalog, graceMs);
      } else {
        OrderAdvancesCoverage(s, e, catalog, graceMs, id);
      }
    }
  }

  lemma NoCoverage(store: Store, e: Event, catalog: Catalog, graceMs: nat)
    requires e.SubscriptionEvent?
    ensures Coverage(store, e, catalog, graceMs) == []
  {
  }

  /** paid_through never decreases, whatever one more event of the subscription is. */
  lemma PaidThroughNeverDecreases(store: Store, e: Event, catalog: Catalog, graceMs: nat, id: string)
    requires OwnRow(store.row, id) && About(e, id)
    ensures CoveredUntil(store.row) <= CoveredUntil(Apply(store, e, catalog, graceMs).row)
  {
    hide Apply, Coverage, About;
    if e.SubscriptionEvent? {
      SnapshotKeepsCoverage(store, e, catalog, graceMs, id);
    } else {
      OrderAdvancesCoverage(store, e, catalog, graceMs, id);
    }
  }

  ghost predicate DistinctEnds(delivered: seq<(Time, string)>) {
    forall c, d | c in delivered && d in delivered && c.0 == d.0 :: c.1 == d.1
  }

  /** Two deliveries of the same coverage, in any order and with any duplicates, leave the same coverage and plan. */
  lemma {:induction false} DeliveryOrderIsIrrelevant(a: Store, xs: seq<Event>, b: Store, ys: seq<Event>,
                                                     catalog: Catalog, graceMs: nat, id: string)
    requires OwnRow(a.row, id) && OwnRow(b.row, id)
    requires (forall e <- xs :: About(e, id)) && forall e <- ys :: About(e, id)
    requires DistinctEnds(Delivered(a, xs, catalog, graceMs))
    requires forall c :: c in Delivered(a, xs, catalog, graceMs) <==> c in Delivered(b, ys, catalog, graceMs)
    ensures var r, q := Run(a, xs, catalog, graceMs).row, Run(b, ys, catalog, graceMs).row;
            && CoveredUntil(r) == CoveredUntil(q)
            && (CoveredUntil(r) > -1 ==> r.value.planId == q.value.planId)
  {
    hide Run, Delivered, About;
    PaidThroughIsGreatest(a, xs, catalog, graceMs, id);
    PaidThroughIsGreatest(b, ys, catalog, graceMs, id);
    var dx, dy := Delivered(a, xs, catalog, graceMs), Delivered(b, ys, catalog, graceMs);
    if dx != [] {
      assert dx[0] in dy;
    }
  }

  // From paid coverage to access.

  /** Neither a revocation nor an order whose money is back. */
  ghost predicate Harmless(e: Event) {
    match e
    case SubscriptionEvent(_, revoked, _) => !revoked
    case OrderEvent(_, order, _) => !GivenBack(order)
  }

  lemma HarmlessStep(store: Store, e: Event, catalog: Catalog, graceMs: nat)
    requires Harmless(e) && (store.row.Some? ==> store.row.value.invalidatedAt.None?)
    ensures var s := Apply(store, e, catalog, graceMs);
            (s.row.Some? ==> s.row.value.invalidatedAt.None?) && s.revokes == store.revokes
  {
    hide ResolveOffer, PendingPlan, NormalizeStatus, Replaceable, PaidNextPlan, CheckOrder, PaymentRow, PeriodEnd, Pays,
         GivenBack, FullRefund, ShouldAdvance, RowAllowed;
    if e.OrderEvent? {
      StatusExactly(e.order);
    }
  }

  /** However often snapshots, payments and partial refunds are delivered, they invalidate and revoke nothing. */
  lemma {:induction false} HarmlessEventsInvalidateNothing(events: seq<Event>, catalog: Catalog, graceMs: nat)
    requires forall e <- events :: Harmless(e)
    ensures var s := Run(Store(None, None, map[], {}), events, catalog, graceMs);
            (s.row.Some? ==> s.row.value.invalidatedAt.None?) && s.revokes == {}
  {
    if events != [] {
      hide Apply, Harmless;
      assert events[|events| - 1] in events;
      HarmlessEventsInvalidateNothing(events[..|events| - 1], catalog, graceMs);
      HarmlessStep(Run(Store(None, None, map[], {}), events[..|events| - 1], catalog, graceMs), events[|events| - 1],
                   catalog, graceMs);
    }
  }

  /** End to end, for the events of one subscription: at any instant the resolver reports paid access if and only if
      some delivered coverage lasts longer and no invalidation is due, and then on the plan of the coverage that lasts
      longest. */
  lemma PaidAccessExactly(events: seq<Event>, catalog: Catalog, graceMs: nat, id: string,
                          plans: AccessResolver.Catalog, grants: seq<AccessResolver.Grant>, t: int)
    requires forall e <- events :: About(e, id)
    requires AccessResolver.ValidCatalog(plans) && Run(Store(None, None, map[], {}), events, catalog, graceMs).row.Some?
    requires forall c <- Delivered(Store(None, None, map[], {}), events, catalog, graceMs) ::
               c.1 != FREE && c.1 in plans
    ensures var empty := Store(None, None, map[], {});
            var delivered := Delivered(empty, events, catalog, graceMs);
            var row := Run(empty, events, catalog, graceMs).row.value;
            var a := AccessResolver.AccessAt(AccessView(row), grants, plans, t);
            && (a.commercialState == AccessResolver.PaidAccess
                <==> (exists c <- delivered :: t < c.0) && (row.invalidatedAt.Some? ==> t < row.invalidatedAt.value))
            && (a.commercialState == AccessResolver.PaidAccess ==>
                  exists c <- delivered :: && (forall d <- delivered :: d.0 <= c.0)
                                           && a.commercialAccessPlanId == Some(c.1)
                                           && plans[c.1].rank <= a.effectivePlan.rank)
  {
    hide Run, Delivered, About, AccessResolver.ValidCatalog, AccessResolver.Effective, AccessResolver.ActiveGrants,
         AccessResolver.NextRecalculation, AccessResolver.CommercialSource;
    var empty := Store(None, None, map[], {});
    var row, delivered := Run(empty, events, catalog, graceMs).row.value, Delivered(empty, events, catalog, graceMs);
    PaidThroughIsGreatest(empty, events, catalog, graceMs, id);
    AccessResolver.CommercialExactly(AccessView(row), t);
    var a := AccessResolver.AccessAt(AccessView(row), grants, plans, t);
    AccessResolver.KnownPlansRank(a.sources, plans, row.planId);
    if a.commercialState == AccessResolver.PaidAccess {
      assert a.sources[1].PlanId() == row.planId && a.sources[1] in a.sources;
    }
  }

  // Refunds, folded after every paid order.

  ghost predicate Refunds(e: Event, id: string) {
    e.OrderEvent? && About(e, id) && GivenBack(e.order)
  }

  /** A full refund whose handler commits and whose coverage ends no earlier than `end`. */
  ghost predicate CommitsRefundFrom(e: Event, catalog: Catalog, end: int) {
    e.OrderEvent? && GivenBack(e.order) && Storable(e.order, e.sub, catalog) && Ms(PeriodEnd(e.order, e.sub)) >= end
  }

  lemma RefundStep(store: Store, e: Event, catalog: Catalog, graceMs: nat, id: string)
    requires Refunds(e, id) && OwnRow(store.row, id) && StoredRow(store.row)
    ensures var s := Apply(store, e, catalog, graceMs);
            var hit := CoveredUntil(store.row) > -1 && CommitsRefundFrom(e, catalog, CoveredUntil(store.row));
            && OwnRow(s.row, id) && StoredRow(s.row) && (s.row.Some? <==> store.row.Some?)
               && CoveredUntil(s.row) == CoveredUntil(store.row)
            && (s.row.Some? ==> (s.row.value.invalidatedAt.Some? <==> store.row.value.invalidatedAt.Some? || hit))
            && s.revokes == if hit then store.revokes + {id} else store.revokes
  {
    hide ResolveOffer, PaidNextPlan, PaymentRow, PeriodEnd, Pays, PeriodValid, CurrencyValid, FullRefund, PaidRow,
         RowAllowed, GivenBack;
    PaysOrRefunds(e.order);
    StatusExactly(e.order);
    if store.row.Some? {
      InvalidatedStaysAllowed(store.row.value, e.at);
    }
  }

  /** A committed order of which part of the money is back is stored as such, extends coverage like any paid order, and
      neither invalidates nor revokes. */
  lemma PartialRefundKeepsCoverage(store: Store, at: Time, order: Order, sub: Option<ProviderSubscription>,
                                   catalog: Catalog)
    requires 0 < order.refunded < order.amount && order.status != "refunded"
    requires UpsertOrder(store, at, order, sub, catalog).Ok?
    ensures var s, end := UpsertOrder(store, at, order, sub, catalog).value, PeriodEnd(order, sub);
            && order.id in s.payments && s.payments[order.id].status == PartiallyRefunded
            && s.payments[order.id].refunded == order.refunded && s.payments[order.id].invalidatedAt.None?
            && s.revokes == store.revokes
            && (if Replacing(store.row, order.subscriptionId.value) || Ms(end) >= CoveredUntil(store.row)
                then s.row.Some? && s.row.value.paidThrough == end && s.row.value.invalidatedAt.None?
                     && s.row.value.pastDueAt.None? && s.row.value.subscriptionId == order.subscriptionId
                else s.row == store.row)
  {
    hide ResolveOffer, PaidNextPlan, RowAllowed;
  }

  /** A committed order whose money is all back ends what the row of its subscription still covers, if it reaches as
      far: from the first such event on the coverage is invalid, past_due and grace are over, and a revocation waits. */
  lemma WholeRefundEndsCoverage(store: Store, at: Time, order: Order, sub: Option<ProviderSubscription>,
                                catalog: Catalog)
    requires 0 < order.refunded && (order.refunded == order.amount || order.status == "refunded")
    requires UpsertOrder(store, at, order, sub, catalog).Ok? && StoredRow(store.row)
    ensures var s, end := UpsertOrder(store, at, order, sub, catalog).value, PeriodEnd(order, sub);
            && order.id in s.payments && s.payments[order.id].status == Refunded
            && s.payments[order.id].invalidatedAt.Some?
            && if store.row.Some? && store.row.value.subscriptionId == order.subscriptionId
                  && store.row.value.paidThrough.Some? && end.Some? && store.row.value.paidThrough.value <= end.value
               then s.row.Some? && s.revokes == store.revokes + {order.subscriptionId.value}
                    && s.row.value.paidThrough == store.row.value.paidThrough
                    && s.row.value.planId == store.row.value.planId
                    && s.row.value.invalidatedAt == (if store.row.value.invalidatedAt.Some?
                                                     then store.row.value.invalidatedAt else Some(at))
                    && s.row.value.invalidationReason == (if store.row.value.invalidatedAt.Some?
                                                          then store.row.value.invalidationReason
                                                          else Some("FULL_REFUND_CURRENT_PERIOD"))
                    && s.row.value.pastDueAt.None? && s.row.value.graceUntil.None?
               else s.row == store.row && s.revokes == store.revokes
  {
    assert store.row.Some?
           ==> (store.row.value.invalidatedAt.Some? <==> store.row.value.invalidationReason.Some?);
    hide ResolveOffer, PaidNextPlan, RowAllowed;
  }

  ghost predicate SomeRefundFrom(events: seq<Event>, catalog: Catalog, end: int) {
    exists e <- events :: CommitsRefundFrom(e, catalog, end)
  }

  /** Folding full refunds invalidates coverage, and queues a revoke, exactly when one of them covers all that is
      paid. */
  lemma {:induction false} RefundPhase(store: Store, events: seq<Event>, catalog: Catalog, graceMs: nat, id: string)
    requires OwnRow(store.row, id) && StoredRow(store.row) && forall e <- events :: Refunds(e, id)
    ensures var s := Run(store, events, catalog, graceMs);
            var hit := CoveredUntil(store.row) > -1 && SomeRefundFrom(events, catalog, CoveredUntil(store.row));
            && OwnRow(s.row, id) && StoredRow(s.row) && (s.row.Some? <==> store.row.Some?)
               && CoveredUntil(s.row) == CoveredUntil(store.row)
            && (s.row.Some? ==> (s.row.value.invalidatedAt.Some? <==> store.row.value.invalidatedAt.Some? || hit))
            && s.revokes == if hit then store.revokes + {id} else store.revokes
  {
    if events != [] {
      hide Apply, CommitsRefundFrom, Refunds, OwnRow, RowAllowed;
      var before, e := events[..|events| - 1], events[|events| - 1];
      assert events == before + [e] && e in events;
      RefundPhase(store, before, catalog, graceMs, id);
      RefundStep(Run(store, before, catalog, graceMs), e, catalog, graceMs, id);
    }
  }

  lemma {:induction false} PaidPhaseIsNotInvalidated(events: seq<Event>, catalog: Catalog, graceMs: nat)
    requires forall e <- events :: e.OrderEvent? && !GivenBack(e.order)
    ensures var s := Run(Store(None, None, map[], {}), events, catalog, graceMs);
            && (s.row.Some? ==> s.row.value.invalidatedAt.None?) && s.revokes == {}
  {
    if events != [] {
      hide CheckOrder, PaymentRow, PaidNextPlan, PeriodEnd, Pays, FullRefund, Replaceable, ShouldAdvance, GivenBack;
      assert events[|events| - 1] in events;
      StatusExactly(events[|events| - 1].order);
      PaidPhaseIsNotInvalidated(events[..|events| - 1], catalog, graceMs);
    }
  }

  /** Paid orders first, then full refunds: coverage is invalidated and a revoke queued if and only if some
      committed full refund ends no earlier than every committed paid coverage. */
  lemma PaidThenRefunded(paid: seq<Event>, refunds: seq<Event>, catalog: Catalog, graceMs: nat, id: string)
    requires forall e <- paid :: e.OrderEvent? && About(e, id) && !GivenBack(e.order)
    requires forall e <- refunds :: Refunds(e, id)
    requires Delivered(Store(None, None, map[], {}), paid, catalog, graceMs) != []
    ensures var empty := Store(None, None, map[], {});
            var delivered := Delivered(empty, paid, catalog, graceMs);
            var s := Run(Run(empty, paid, catalog, graceMs), refunds, catalog, graceMs);
            var hit := exists e <- refunds :: forall c <- delivered :: CommitsRefundFrom(e, catalog, c.0);
            && s.row.Some? && (s.row.value.invalidatedAt.Some? <==> hit) && (id in s.revokes <==> hit)
  {
    hide Run, Delivered, Refunds, GivenBack, RowAllowed;
    var empty := Store(None, None, map[], {});
    var delivered := Delivered(empty, paid, catalog, graceMs);
    var s := Run(empty, paid, catalog, graceMs);
    PaidThroughIsGreatest(empty, paid, catalog, graceMs, id);
    PaidPhaseIsNotInvalidated(paid, catalog, graceMs);
    RunStaysAllowed(empty, paid, catalog, graceMs);
    RefundPhase(s, refunds, catalog, graceMs, id);
    var end := CoveredUntil(s.row);
    forall e <- refunds
      ensures CommitsRefundFrom(e, catalog, end) <==> forall c <- delivered :: CommitsRefundFrom(e, catalog, c.0)
    {
      RefundCoversAll(e, catalog, s.row.value.paidThrough.value, s.row.value.planId, delivered);
    }
  }

  lemma RefundCoversAll(e: Event, catalog: Catalog, end: Time, planId: string, delivered: seq<(Time, string)>)
    requires (end, planId) in delivered && forall c <- delivered :: c.0 <= end
    ensures CommitsRefundFrom(e, catalog, end) <==> forall c <- delivered :: CommitsRefundFrom(e, catalog, c.0)
  {
    hide Storable, PeriodEnd, GivenBack;
    if forall c <- delivered :: CommitsRefundFrom(e, catalog, c.0) {
      assert CommitsRefundFrom(e, catalog, (end, planId).0);
    }
  }
}
