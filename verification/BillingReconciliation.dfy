/** Rebuilding a user's billing facts from the provider's own listing. */
module BillingReconciliation {
  import opened Wrappers
  import opened BillingProjection

  // Which of the listed subscriptions speaks for the user.

  datatype Selection = Ambiguous | Nothing(historicalOnly: bool) | Chosen(sub: ProviderSubscription)

  predicate IsCurrent(sub: ProviderSubscription, now: Time) {
    var ended := sub.Ended();
    var until := if sub.periodEnd.Some? then sub.periodEnd else sub.endsAt;
    && !(sub.status in ["canceled", "revoked"] && ended.Some? && ended.value <= now)
    && (sub.status in ["trialing", "active", "past_due", "unpaid", "incomplete", "paused"]
        || (until.Some? && until.value > now))
  }

  function Current(subs: seq<ProviderSubscription>, now: Time): seq<ProviderSubscription> {
    if subs == [] then []
    else (if subs[0].id != "" && IsCurrent(subs[0], now) then [subs[0]] else []) + Current(subs[1..], now)
  }

  function Named(subs: seq<ProviderSubscription>, id: string): seq<ProviderSubscription> {
    if subs == [] then [] else (if subs[0].id == id then [subs[0]] else []) + Named(subs[1..], id)
  }

  function Valid(subs: seq<ProviderSubscription>): seq<ProviderSubscription> {
    if subs == [] then [] else (if subs[0].id != "" then [subs[0]] else []) + Valid(subs[1..])
  }

  function SelectSubscription(subs: seq<ProviderSubscription>, localId: Option<string>, now: Time): Selection {
    var current, valid := Current(subs, now), Valid(subs);
    if |current| > 1 then Ambiguous
    else if |current| == 1 then Chosen(current[0])
    else
      var exact := if localId.Some? && localId.value != "" then Named(valid, localId.value) else [];
      if |exact| > 1 then Ambiguous
      else if |exact| == 1 then Chosen(exact[0])
      else if |valid| == 1 then Chosen(valid[0])
      else Nothing(|valid| > 1)
  }

  // The transaction: orders first, full refunds after every other order, the fresh subscription last.

  function EventTime(stamp: Option<Time>, now: Time): Time {
    if stamp.Some? then stamp.value else now
  }

  function ApplyOrders(store: Store, orders: seq<Order>, sub: ProviderSubscription, catalog: Catalog,
                       now: Time): Result<Store, Error> {
    if orders == [] then Ok(store)
    else
      var before, order := ApplyOrders(store, orders[..|orders| - 1], sub, catalog, now), orders[|orders| - 1];
      if before.Err? then before else UpsertOrder(before.value, EventTime(order.stamp, now), order, Some(sub), catalog)
  }

  function Where(orders: seq<Order>, fullRefund: bool): seq<Order> {
    if orders == [] then []
    else (if FullRefund(orders[0]) == fullRefund then [orders[0]] else []) + Where(orders[1..], fullRefund)
  }

  function ProjectionOrders(orders: seq<Order>): seq<Order> {
    Where(orders, false) + Where(orders, true)
  }

  function Project(store: Store, sub: ProviderSubscription, orders: seq<Order>, catalog: Catalog, graceMs: nat,
                   now: Time): Result<Store, Error> {
    var projected := ApplyOrders(store, ProjectionOrders(orders), sub, catalog, now);
    if projected.Err? then projected
    else ApplySnapshot(projected.value, false, EventTime(sub.stamp, now), sub, catalog, graceMs)
  }

  function RelevantOrders(orders: seq<Order>, id: string): seq<Order> {
    if orders == [] then []
    else (if orders[0].subscriptionId == Some(id) then [orders[0]] else []) + RelevantOrders(orders[1..], id)
  }

  // Listings the service refuses to interpret.

  predicate IdentitiesClear(subs: seq<ProviderSubscription>, orders: seq<Order>) {
    && (forall s <- subs :: s.id != "" && s.customerId.Some?)
    && (forall i, j | 0 <= i < j < |subs| :: subs[i].id != subs[j].id)
    && (forall o <- orders :: o.id != "" && o.subscriptionId.Some? && o.customerId.Some?)
    && (forall i, j | 0 <= i < j < |orders| :: orders[i].id != orders[j].id)
  }

  predicate SafeSubscription(sub: ProviderSubscription, catalog: Catalog) {
    sub.productId.Some? && sub.priceId.Some? && ResolveOffer(catalog, sub.productId, sub.priceId).Ok?
  }

  /** Historical orders may not borrow the current period, and refunds must add up. */
  function OrderProblem(order: Order, catalog: Catalog): Option<string> {
    var offer := ResolveOffer(catalog, order.productId, order.priceId);
    if order.productId.None? || order.priceId.None? || offer.Err? then Some("UNKNOWN_OR_AMBIGUOUS_OFFER")
    else if (Pays(order) || FullRefund(order))
            && (order.period.None? || order.period.value.0 >= order.period.value.1
                || order.currency != offer.value.currency)
    then Some("PROVIDER_STATE_AMBIGUOUS")
    else if order.refunded > order.amount || (order.status == "refunded" && order.refunded != order.amount)
            || (order.refunded > 0 && order.amount == 0)
    then Some("REFUND_INTERPRETATION_AMBIGUOUS")
    else None
  }

  function FirstProblem(orders: seq<Order>, catalog: Catalog): Option<string> {
    if orders == [] then None
    else
      var problem := OrderProblem(orders[0], catalog);
      if problem.Some? then problem else FirstProblem(orders[1..], catalog)
  }

  function BundleProblem(subs: seq<ProviderSubscription>, orders: seq<Order>, sub: ProviderSubscription,
                         relevant: seq<Order>, catalog: Catalog)
    : Option<string>
  {
    if !IdentitiesClear(subs, orders) then Some("PROVIDER_STATE_AMBIGUOUS")
    else if !SafeSubscription(sub, catalog) then Some("UNKNOWN_OR_AMBIGUOUS_OFFER")
    else FirstProblem(relevant, catalog)
  }

  function ReasonFor(error: Error): string {
    match error
    case OfferAmbiguous => "UNKNOWN_OR_AMBIGUOUS_OFFER"
    case MultipleSubscriptions => "MULTIPLE_SUBSCRIPTIONS_UNEXPECTED"
    case _ => "PROVIDER_STATE_AMBIGUOUS"
  }

  predicate BindingsAgree(store: Store, sub: ProviderSubscription, orders: seq<Order>) {
    var local := if store.customer.Some? then store.customer else if store.row.Some? then store.row.value.customerId
                 else None;
    && (forall o <- orders :: o.customerId.Some? && sub.customerId.Some? ==> o.customerId == sub.customerId)
    && (local.Some? && sub.customerId.Some? ==> local == sub.customerId)
  }

  datatype Outcome =
    | Exception(reason: string)  // recorded for a human; nothing is changed
    | NothingToProject
    | Reconciled(repaired: bool)

  function LocalId(store: Store): Option<string> {
    if store.row.Some? then store.row.value.subscriptionId else None
  }

  /** Customer, subscription and payments; queued actions are not part of the fingerprint. */
  function Fingerprint(store: Store): (Option<string>, Option<Row>, map<string, Payment>) {
    (store.customer, store.row, store.payments)
  }

  function Reconcile(store: Store, subs: seq<ProviderSubscription>, orders: seq<Order>, uncertainCheckout: bool,
                     catalog: Catalog, graceMs: nat, now: Time): (Store, Outcome)
  {
    var localId := LocalId(store);
    if localId.Some? && localId.value != "" && Named(subs, localId.value) == []
       then (store, Exception("PROVIDER_SUBSCRIPTION_MISSING"))
    else
      match SelectSubscription(subs, localId, now)
      case Ambiguous => (store, Exception("MULTIPLE_SUBSCRIPTIONS_UNEXPECTED"))
      case Nothing(historicalOnly) =>
        if localId.Some? && localId.value != "" then (store, Exception("PROVIDER_SUBSCRIPTION_MISSING"))
        else if uncertainCheckout || orders != [] || historicalOnly then (store, Exception("PROVIDER_STATE_AMBIGUOUS"))
        else (store, NothingToProject)
      case Chosen(sub) =>
        var relevant := RelevantOrders(orders, sub.id);
        var problem := BundleProblem(subs, orders, sub, relevant, catalog);
        if problem.Some? then (store, Exception(problem.value))
        else if !BindingsAgree(store, sub, relevant) then (store, Exception("BINDING_CONTRADICTION"))
        else
          var projected := Project(store, sub, relevant, catalog, graceMs, now);
          if projected.Err? then (store, Exception(ReasonFor(projected.error)))
          else (projected.value, Reconciled(Fingerprint(store) != Fingerprint(projected.value)))
  }

  // Projecting the same facts again.

  ghost predicate OrdersOf(orders: seq<Order>, id: string) {
    forall o <- orders :: o.subscriptionId == Some(id)
  }

  ghost predicate NoFullRefund(orders: seq<Order>) {
    forall o <- orders :: !FullRefund(o)
  }

  ghost predicate OnlyFullRefunds(orders: seq<Order>) {
    forall o <- orders :: FullRefund(o)
  }

  ghost predicate Stamped(orders: seq<Order>) {
    forall o <- orders :: o.stamp.Some?
  }

  ghost predicate UniqueIds(orders: seq<Order>) {
    forall i, j | 0 <= i < j < |orders| :: orders[i].id != orders[j].id
  }

  /** The end of a paid order's coverage, as projected beside this subscription. */
  ghost function End(order: Order, sub: ProviderSubscription): int {
    Ms(PeriodEnd(order, Some(sub)))
  }

  ghost predicate PaysUntil(orders: seq<Order>, sub: ProviderSubscription, end: int) {
    exists o <- orders :: Pays(o) && End(o, sub) == end
  }

  /** Some paid order of the subscription replaces the stored row. */
  ghost predicate Taken(row: Option<Row>, orders: seq<Order>, sub: ProviderSubscription) {
    exists o <- orders :: Pays(o) && ShouldAdvance(row, sub.id, PeriodEnd(o, Some(sub)))
  }

  /** As a paid order leaves a row: without past_due, grace or invalidation. */
  ghost predicate Clean(row: Option<Row>) {
    && row.Some? && row.value.pastDueAt.None? && row.value.graceUntil.None?
    && row.value.invalidatedAt.None? && row.value.invalidationReason.None?
  }

  ghost predicate PaysAtMost(orders: seq<Order>, sub: ProviderSubscription, end: int) {
    forall o <- orders :: Pays(o) ==> End(o, sub) <= end
  }

  lemma PaidStep(store: Store, at: Time, order: Order, sub: ProviderSubscription, catalog: Catalog, id: string)
    requires OwnRow(store.row, id) && order.subscriptionId == Some(id) && !FullRefund(order)
    requires UpsertOrder(store, at, order, Some(sub), catalog).Ok?
    ensures var s := UpsertOrder(store, at, order, Some(sub), catalog).value;
            && OwnRow(s.row, id) && (StoredRow(store.row) ==> StoredRow(s.row))
            && s.revokes == store.revokes
            && (if Pays(order) && (store.row.None? || End(order, sub) >= CoveredUntil(store.row))
                then CoveredUntil(s.row) == End(order, sub) && Clean(s.row)
                else s.row == store.row)
  {
    hide ResolveOffer, PaidNextPlan, PaymentRow, PeriodEnd, Pays, PeriodValid, CurrencyValid, FullRefund, RowAllowed;
  }

  /** From two stores that agree on what counts, the same paying order succeeds in both, whenever it is applied, and
      writes the same row. */
  lemma PaidStepAgain(a: Store, b: Store, at: Time, later: Time, order: Order, sub: ProviderSubscription,
                      catalog: Catalog, id: string)
    requires OwnRow(a.row, id) && b.row.Some? && OwnRow(b.row, id) && order.subscriptionId == Some(id)
             && !FullRefund(order)
    requires UpsertOrder(a, at, order, Some(sub), catalog).Ok?
    requires Pays(order) ==> End(order, sub) <= CoveredUntil(b.row)
    requires CoveredUntil(a.row) <= CoveredUntil(b.row)
    ensures UpsertOrder(b, later, order, Some(sub), catalog).Ok?
    ensures var row := UpsertOrder(b, later, order, Some(sub), catalog).value.row;
            if Pays(order) && End(order, sub) == CoveredUntil(b.row)
            then row == UpsertOrder(a, at, order, Some(sub), catalog).value.row
            else row == b.row
  {
    hide ResolveOffer, PaidNextPlan, PaymentRow, PeriodEnd, Pays, PeriodValid, CurrencyValid, FullRefund, PaidRow,
         RowAllowed;
  }

  lemma NeverCovered(row: Option<Row>)
    ensures CoveredUntil(row) >= -1 && (row.None? ==> CoveredUntil(row) == -1)
  {
  }

  /** What the paid orders so far have made of a row: once one took it over, it covers the latest end among them. */
  ghost predicate PaidSoFar(start: Option<Row>, orders: seq<Order>, sub: ProviderSubscription, row: Option<Row>) {
    && CoveredUntil(start) <= CoveredUntil(row) && PaysAtMost(orders, sub, CoveredUntil(row))
    && (start.Some? ==> row.Some?)
    && if Taken(start, orders, sub) then PaysUntil(orders, sub, CoveredUntil(row)) && Clean(row) else row == start
  }

  lemma PaidSoFarNext(start: Option<Row>, before: seq<Order>, order: Order, sub: ProviderSubscription,
                      row: Option<Row>, next: Option<Row>)
    requires PaidSoFar(start, before, sub, row) && OwnRow(start, sub.id)
    requires if Pays(order) && (row.None? || End(order, sub) >= CoveredUntil(row))
             then CoveredUntil(next) == End(order, sub) && Clean(next)
             else next == row
    ensures PaidSoFar(start, before + [order], sub, next)
  {
    hide Pays, PeriodEnd;
    var orders := before + [order];
    assert order in orders && forall o <- before :: o in orders;
    assert Taken(start, orders, sub)
      <==> Taken(start, before, sub) || (Pays(order) && ShouldAdvance(start, sub.id, PeriodEnd(order, Some(sub))));
    NeverCovered(row);
  }

  lemma {:induction false} PaidPhase(store: Store, orders: seq<Order>, sub: ProviderSubscription, catalog: Catalog,
                                     now: Time)
    requires OwnRow(store.row, sub.id) && OrdersOf(orders, sub.id) && NoFullRefund(orders)
    requires ApplyOrders(store, orders, sub, catalog, now).Ok?
    ensures var s := ApplyOrders(store, orders, sub, catalog, now).value;
            && OwnRow(s.row, sub.id) && s.revokes == store.revokes && (StoredRow(store.row) ==> StoredRow(s.row))
            && PaidSoFar(store.row, orders, sub, s.row)
  {
    if orders != [] {
      hide UpsertOrder, Pays, FullRefund, End, CoveredUntil, PaidSoFar, Clean, RowAllowed;
      var before, order := orders[..|orders| - 1], orders[|orders| - 1];
      assert orders == before + [order] && order in orders;
      PaidPhase(store, before, sub, catalog, now);
      var s := ApplyOrders(store, before, sub, catalog, now).value;
      PaidStep(s, EventTime(order.stamp, now), order, sub, catalog, sub.id);
      PaidSoFarNext(store.row, before, order, sub, s.row, ApplyOrders(store, orders, sub, catalog, now).value.row);
    } else {
      hide UpsertOrder;
    }
  }

  /** How two runs of the paid phase relate: equal once an order reached `end`, otherwise the second has not moved. */
  ghost predicate InStep(a: Store, s: Store, b: Store, t: Store, id: string, end: int, reached: bool) {
    && OwnRow(s.row, id) && OwnRow(t.row, id) && t.row.Some? && CoveredUntil(t.row) == end && CoveredUntil(s.row) <= end
    && if reached then t.row == s.row else t.row == b.row && (s.row == a.row || CoveredUntil(s.row) < end)
  }

  lemma PaidStepInStep(a: Store, s: Store, b: Store, t: Store, at: Time, later: Time, order: Order,
                       sub: ProviderSubscription, catalog: Catalog, id: string, end: int, reached: bool)
    requires InStep(a, s, b, t, id, end, reached) && order.subscriptionId == Some(id) && !FullRefund(order)
    requires (Pays(order) ==> End(order, sub) <= end) && UpsertOrder(s, at, order, Some(sub), catalog).Ok?
    ensures UpsertOrder(t, later, order, Some(sub), catalog).Ok?
    ensures InStep(a, UpsertOrder(s, at, order, Some(sub), catalog).value, b,
                   UpsertOrder(t, later, order, Some(sub), catalog).value,
                   id, end, reached || (Pays(order) && End(order, sub) == end))
  {
    hide UpsertOrder, Pays, FullRefund, PeriodEnd;
    PaidStep(s, at, order, sub, catalog, id);
    PaidStepAgain(s, t, at, later, order, sub, catalog, id);
  }

  lemma PaidPrefix(before: seq<Order>, order: Order, sub: ProviderSubscription, id: string, end: int)
    requires var orders := before + [order];
             OrdersOf(orders, id) && NoFullRefund(orders) && PaysAtMost(orders, sub, end)
    ensures OrdersOf(before, id) && NoFullRefund(before) && PaysAtMost(before, sub, end)
    ensures order.subscriptionId == Some(id) && !FullRefund(order) && (Pays(order) ==> End(order, sub) <= end)
    ensures PaysUntil(before + [order], sub, end) <==> PaysUntil(before, sub, end)
                                                       || (Pays(order) && End(order, sub) == end)
  {
    hide Pays, FullRefund, End;
    assert order in before + [order] && forall o <- before :: o in before + [order];
  }

  lemma {:induction false} PaidPhaseAgain(a: Store, b: Store, orders: seq<Order>, sub: ProviderSubscription,
                                          catalog: Catalog,
                                          now: Time, later: Time, id: string)
    requires OwnRow(a.row, id) && b.row.Some? && OwnRow(b.row, id) && OrdersOf(orders, id) && NoFullRefund(orders)
    requires CoveredUntil(a.row) <= CoveredUntil(b.row) && PaysAtMost(orders, sub, CoveredUntil(b.row))
    requires ApplyOrders(a, orders, sub, catalog, now).Ok?
    ensures ApplyOrders(b, orders, sub, catalog, later).Ok?
    ensures InStep(a, ApplyOrders(a, orders, sub, catalog, now).value, b,
                   ApplyOrders(b, orders, sub, catalog, later).value,
                   id, CoveredUntil(b.row), PaysUntil(orders, sub, CoveredUntil(b.row)))
  {
    if orders != [] {
      hide UpsertOrder, Pays, FullRefund, End, CoveredUntil, InStep, OwnRow, OrdersOf, NoFullRefund, PaysAtMost,
           PaysUntil;
      var before, order := orders[..|orders| - 1], orders[|orders| - 1];
      var end := CoveredUntil(b.row);
      assert orders == before + [order];
      PaidPrefix(before, order, sub, id, end);
      PaidPhaseAgain(a, b, before, sub, catalog, now, later, id);
      var s, t := ApplyOrders(a, before, sub, catalog, now).value, ApplyOrders(b, before, sub, catalog, later).value;
      PaidStepInStep(a, s, b, t, EventTime(order.stamp, now), EventTime(order.stamp, later), order, sub, catalog, id,
                     end, PaysUntil(before, sub, end));
    } else {
      assert !PaysUntil(orders, sub, CoveredUntil(b.row));
    }
  }

  // Refunds.

  ghost function FirstCovering(refunds: seq<Order>, sub: ProviderSubscription, end: int): Option<Order> {
    if refunds == [] || end == -1 then None
    else
      var before := FirstCovering(refunds[..|refunds| - 1], sub, end);
      var last := refunds[|refunds| - 1];
      if before.Some? then before else if End(last, sub) >= end then Some(last) else None
  }

  ghost function RefundedRow(row: Option<Row>, refunds: seq<Order>, sub: ProviderSubscription, now: Time): Option<Row> {
    var order := FirstCovering(refunds, sub, CoveredUntil(row));
    if row.Some? && order.Some? then Some(InvalidatedRow(row.value, EventTime(order.value.stamp, now))) else row
  }

  lemma RefundFoldStep(store: Store, at: Time, order: Order, sub: ProviderSubscription, catalog: Catalog, id: string)
    requires OwnRow(store.row, id) && StoredRow(store.row) && order.subscriptionId == Some(id) && FullRefund(order)
    ensures UpsertOrder(store, at, order, Some(sub), catalog).Ok? <==> Storable(order, Some(sub), catalog)
    ensures UpsertOrder(store, at, order, Some(sub), catalog).Ok? ==>
              var s := UpsertOrder(store, at, order, Some(sub), catalog).value;
              var hit := CoveredUntil(store.row) > -1 && End(order, sub) >= CoveredUntil(store.row);
              && OwnRow(s.row, id) && StoredRow(s.row)
              && s.row == (if hit then Some(InvalidatedRow(store.row.value, at)) else store.row)
              && s.revokes == if hit then store.revokes + {id} else store.revokes
  {
    hide ResolveOffer, PaidNextPlan, PaymentRow, PeriodEnd, Pays, PeriodValid, CurrencyValid, FullRefund, PaidRow,
         RowAllowed;
    PaysOrRefunds(order);
    if store.row.Some? {
      InvalidatedStaysAllowed(store.row.value, at);
    }
  }

  lemma {:induction false} RefundFold(store: Store, orders: seq<Order>, sub: ProviderSubscription, catalog: Catalog,
                                       now: Time, id: string)
    requires OwnRow(store.row, id) && StoredRow(store.row)
    requires OrdersOf(orders, id) && OnlyFullRefunds(orders)
    requires forall o <- orders :: Storable(o, Some(sub), catalog)
    ensures ApplyOrders(store, orders, sub, catalog, now).Ok?
    ensures var s := ApplyOrders(store, orders, sub, catalog, now).value;
            && OwnRow(s.row, id) && StoredRow(s.row)
            && s.row == RefundedRow(store.row, orders, sub, now)
            && s.revokes == if FirstCovering(orders, sub, CoveredUntil(store.row)).Some? then store.revokes + {id}
                            else store.revokes
  {
    if orders != [] {
      hide UpsertOrder, Storable, FullRefund, PeriodEnd, RowAllowed;
      var before, order := orders[..|orders| - 1], orders[|orders| - 1];
      assert order in orders;
      RefundFold(store, before, sub, catalog, now, id);
      RefundFoldStep(ApplyOrders(store, before, sub, catalog, now).value, EventTime(order.stamp, now), order, sub,
                     catalog, id);
    }
  }

  lemma CommittedIsStorable(store: Store, at: Time, order: Order, sub: ProviderSubscription, catalog: Catalog)
    requires UpsertOrder(store, at, order, Some(sub), catalog).Ok?
    ensures Storable(order, Some(sub), catalog)
  {
    hide CheckOrder, PaidNextPlan, RowAllowed, InvalidatesCoverage, Pays, ShouldAdvance, Replaceable, PaymentRow;
  }

  lemma {:induction false} RefundsWereChecked(store: Store, orders: seq<Order>, sub: ProviderSubscription,
                                              catalog: Catalog, now: Time, id: string)
    requires ApplyOrders(store, orders, sub, catalog, now).Ok?
    ensures forall o <- orders :: Storable(o, Some(sub), catalog)
  {
    if orders != [] {
      hide UpsertOrder, Storable;
      var before, order := orders[..|orders| - 1], orders[|orders| - 1];
      assert orders == before + [order];
      RefundsWereChecked(store, before, sub, catalog, now, id);
      CommittedIsStorable(ApplyOrders(store, before, sub, catalog, now).value, EventTime(order.stamp, now), order, sub,
                          catalog);
    } else {
      hide UpsertOrder;
    }
  }

  // The snapshot applied last.

  ghost function SnapshotOf(row: Option<Row>, sub: ProviderSubscription, catalog: Catalog, graceMs: nat,
                            at: Time): Option<Row> {
    var offer := ResolveOffer(catalog, sub.productId, sub.priceId);
    if offer.Err? then None
    else
      var next := PendingPlan(catalog, sub, row, offer.value);
      if next.Err? then None
      else
        var written := SnapshotRow(row, false, at, sub, offer.value, next.value, graceMs);
        if RowAllowed(written) then Some(written) else None
  }

  lemma SnapshotPhase(store: Store, sub: ProviderSubscription, catalog: Catalog, graceMs: nat, at: Time)
    requires OwnRow(store.row, sub.id)
    ensures var r := ApplySnapshot(store, false, at, sub, catalog, graceMs);
            var row := SnapshotOf(store.row, sub, catalog, graceMs, at);
            && (r.Ok? <==> row.Some?) && StoredRow(row)
            && (r.Ok? ==> r.value == WithCustomer(store, sub.customerId).(row := row))
  {
    hide ResolveOffer, PendingPlan, SnapshotRow, RowAllowed;
  }

  /** As above for a row about another subscription, when the snapshot was not refused for it. */
  lemma AnySnapshotPhase(store: Store, sub: ProviderSubscription, catalog: Catalog, graceMs: nat, at: Time)
    ensures var r := ApplySnapshot(store, false, at, sub, catalog, graceMs);
            var row := SnapshotOf(store.row, sub, catalog, graceMs, at);
            && (OwnRow(store.row, sub.id) ==> (r.Ok? <==> row.Some?))
            && (r.Ok? ==> row.Some? && StoredRow(row) && r.value == WithCustomer(store, sub.customerId).(row := row))
  {
    hide ResolveOffer, PendingPlan, SnapshotRow, RowAllowed;
  }

  lemma PendingPlanAgain(row: Option<Row>, sub: ProviderSubscription, catalog: Catalog, graceMs: nat, at: Time,
                         offer: Offer, again: Row)
    requires PendingPlan(catalog, sub, row, offer).Ok?
    requires again.planId == SnapshotPlan(row, sub, offer)
             && again.paidThrough == (if row.Some? then row.value.paidThrough else None)
    requires again.next == PendingPlan(catalog, sub, row, offer).value && !Replacing(row, sub.id)
    ensures PendingPlan(catalog, sub, Some(again), offer) == PendingPlan(catalog, sub, row, offer)
  {
    hide ResolveOffer, NormalizeStatus;
  }

  /** The scheduled plan depends on three fields of the row. */
  lemma PendingPlanSees(a: Option<Row>, b: Option<Row>, sub: ProviderSubscription, catalog: Catalog, offer: Offer)
    requires a.Some? <==> b.Some?
    requires a.Some? ==> a.value.planId == b.value.planId && a.value.paidThrough == b.value.paidThrough
                         && a.value.next == b.value.next
    ensures PendingPlan(catalog, sub, a, offer) == PendingPlan(catalog, sub, b, offer)
  {
    hide ResolveOffer, NormalizeStatus;
  }

  /** Nothing but the time of the pass tells when this past_due subscription became so. */
  ghost predicate DueByClock(sub: ProviderSubscription) {
    NormalizeStatus(sub.status) == "past_due" && sub.pastDueAt.None? && sub.stamp.None?
  }

  /** Refund and snapshot over the clean row a paid order rewrites: what they store again, at whatever time. */
  lemma SettledWhenRewritten(row: Row, refund: Option<Order>, sub: ProviderSubscription, catalog: Catalog,
                             graceMs: nat, now: Time, later: Time)
    requires now <= later && OwnRow(Some(row), sub.id) && Clean(Some(row))
    requires SnapshotOf(Some(RefundedBy(row, refund, now)), sub, catalog, graceMs, EventTime(sub.stamp, now)).Some?
    ensures SnapshotOf(Some(RefundedBy(row, refund, later)), sub, catalog, graceMs, EventTime(sub.stamp, later))
            == SnapshotOf(Some(RefundedBy(row, refund, now)), sub, catalog, graceMs, EventTime(sub.stamp, now))
            <==> now == later || !((refund.Some? && refund.value.stamp.None?) || DueByClock(sub))
  {
    hide ResolveOffer, PendingPlan, NormalizeStatus, RowAllowed;
    var offer := ResolveOffer(catalog, sub.productId, sub.priceId).value;
    PendingPlanSees(Some(RefundedBy(row, refund, now)), Some(RefundedBy(row, refund, later)), sub, catalog, offer);
  }

  ghost function RefundedBy(row: Row, refund: Option<Order>, now: Time): Row {
    if refund.Some? then InvalidatedRow(row, EventTime(refund.value.stamp, now)) else row
  }

  /** Refund and snapshot over the row they left themselves: only a past_due time taken from the clock, and cleared by
      the refund each time, moves. */
  lemma SettledWhenKept(row: Option<Row>, refund: Option<Order>, sub: ProviderSubscription, catalog: Catalog,
                        graceMs: nat, now: Time, later: Time)
    requires now <= later && OwnRow(row, sub.id) && (row.None? ==> refund.None?)
    requires var first := if row.Some? then Some(RefundedBy(row.value, refund, now)) else None;
             SnapshotOf(first, sub, catalog, graceMs, EventTime(sub.stamp, now)).Some?
    ensures var first := if row.Some? then Some(RefundedBy(row.value, refund, now)) else None;
            var settled := SnapshotOf(first, sub, catalog, graceMs, EventTime(sub.stamp, now));
            SnapshotOf(Some(RefundedBy(settled.value, refund, later)), sub, catalog, graceMs,
                       EventTime(sub.stamp, later)) == settled
            <==> now == later || !(refund.Some? && DueByClock(sub))
  {
    hide ResolveOffer, PendingPlan, NormalizeStatus, RowAllowed;
    var first := if row.Some? then Some(RefundedBy(row.value, refund, now)) else None;
    var settled := SnapshotOf(first, sub, catalog, graceMs, EventTime(sub.stamp, now)).value;
    var offer := ResolveOffer(catalog, sub.productId, sub.priceId).value;
    PendingPlanAgain(first, sub, catalog, graceMs, EventTime(sub.stamp, now), offer,
                     RefundedBy(settled, refund, later));
  }

  /** The clock shows in what a second pass stores: as the time of an unstamped refund over a row that is rewritten, or
      as a past_due time that is written anew. */
  ghost predicate ClockMoves(taken: bool, refund: Option<Order>, sub: ProviderSubscription) {
    || (taken && refund.Some? && refund.value.stamp.None?)
    || ((taken || refund.Some?) && DueByClock(sub))
  }

  /** Refunds and snapshot together, over the row as the paid orders leave it in both passes. */
  lemma {:induction false} SettledRow(row: Option<Row>, taken: bool, refunds: seq<Order>, sub: ProviderSubscription,
                                      catalog: Catalog, graceMs: nat, now: Time, later: Time)
    requires now <= later && OwnRow(row, sub.id) && (taken ==> Clean(row))
    requires SnapshotOf(RefundedRow(row, refunds, sub, now), sub, catalog, graceMs, EventTime(sub.stamp, now)).Some?
    ensures var settled := SnapshotOf(RefundedRow(row, refunds, sub, now), sub, catalog, graceMs,
                                      EventTime(sub.stamp, now));
            && OwnRow(settled, sub.id) && CoveredUntil(settled) == CoveredUntil(row)
            && (SnapshotOf(RefundedRow(if taken then row else settled, refunds, sub, later), sub, catalog, graceMs,
                           EventTime(sub.stamp, later)) == settled
                <==> now == later || !ClockMoves(taken, FirstCovering(refunds, sub, CoveredUntil(row)), sub))
  {
    hide ResolveOffer, PendingPlan, NormalizeStatus, SnapshotPastDue, SnapshotGrace, SnapshotPlan, RowAllowed,
         FirstCovering, DueByClock;
    var refund := FirstCovering(refunds, sub, CoveredUntil(row));
    if taken {
      SettledWhenRewritten(row.value, refund, sub, catalog, graceMs, now, later);
    } else {
      NoneCoversNothing(row, refunds, sub);
      SettledWhenKept(row, refund, sub, catalog, graceMs, now, later);
    }
  }

  lemma NoneCoversNothing(row: Option<Row>, refunds: seq<Order>, sub: ProviderSubscription)
    ensures row.None? ==> FirstCovering(refunds, sub, CoveredUntil(row)).None?
  {
  }

  // Payments.

  /** The payment is the one this order writes: a full refund keeps the time at which it was first seen. */
  ghost predicate PaymentSettled(store: Store, order: Order, sub: ProviderSubscription, catalog: Catalog) {
    && order.id in store.payments && CheckOrder(order, Some(sub), catalog).Ok?
    && var payment := store.payments[order.id];
       && (FullRefund(order) ==> payment.invalidatedAt.Some?)
       && payment == PaymentRow(Some(payment), 0, order, Some(sub), CheckOrder(order, Some(sub), catalog).value)
  }

  lemma PaymentStep(store: Store, at: Time, order: Order, sub: ProviderSubscription, catalog: Catalog)
    requires UpsertOrder(store, at, order, Some(sub), catalog).Ok?
    ensures var s := UpsertOrder(store, at, order, Some(sub), catalog).value;
            && PaymentSettled(s, order, sub, catalog)
            && (forall id | id != order.id :: id in s.payments <==> id in store.payments)
            && (forall id | id != order.id && id in store.payments :: s.payments[id] == store.payments[id])
            && (PaymentSettled(store, order, sub, catalog) ==> s.payments == store.payments)
  {
    hide CheckOrder, OrderRow, Replaceable, FullRefund, PeriodEnd;
  }

  /** Every order's payment is settled, and no other payment has changed. */
  ghost predicate PaymentsOf(store: Store, s: Store, orders: seq<Order>, sub: ProviderSubscription, catalog: Catalog) {
    && (forall o <- orders :: PaymentSettled(s, o, sub, catalog))
    && forall id | forall o <- orders :: o.id != id ::
         (id in s.payments <==> id in store.payments) && (id in store.payments ==> s.payments[id] == store.payments[id])
  }

  lemma PaymentsOfNext(store: Store, before: seq<Order>, s: Store, at: Time, order: Order, sub: ProviderSubscription,
                       catalog: Catalog)
    requires PaymentsOf(store, s, before, sub, catalog) && (forall o <- before :: o.id != order.id)
    requires UpsertOrder(s, at, order, Some(sub), catalog).Ok?
    ensures PaymentsOf(store, UpsertOrder(s, at, order, Some(sub), catalog).value, before + [order], sub, catalog)
  {
    hide UpsertOrder, PaymentRow, CheckOrder, FullRefund;
    PaymentStep(s, at, order, sub, catalog);
    assert order in before + [order] && forall o <- before :: o in before + [order];
  }

  lemma UniqueSplits(before: seq<Order>, order: Order)
    requires UniqueIds(before + [order])
    ensures UniqueIds(before) && forall o <- before :: o.id != order.id
  {
    var orders := before + [order];
    assert forall i | 0 <= i < |before| :: orders[i] == before[i];
    assert orders[|before|] == order;
  }

  lemma ApplyOrdersNext(store: Store, before: seq<Order>, order: Order, sub: ProviderSubscription, catalog: Catalog,
                        now: Time)
    ensures ApplyOrders(store, before + [order], sub, catalog, now)
         == var s := ApplyOrders(store, before, sub, catalog, now);
            if s.Err? then s else UpsertOrder(s.value, EventTime(order.stamp, now), order, Some(sub), catalog)
  {
    hide UpsertOrder, EventTime;
    assert (before + [order])[..|before + [order]| - 1] == before;
  }

  lemma PaymentsOfNone(store: Store, sub: ProviderSubscription, catalog: Catalog, now: Time)
    ensures ApplyOrders(store, [], sub, catalog, now) == Ok(store) && PaymentsOf(store, store, [], sub, catalog)
  {
  }

  lemma {:induction false} PaymentsSettle(store: Store, orders: seq<Order>, sub: ProviderSubscription, catalog: Catalog,
                                          now: Time)
    requires UniqueIds(orders) && ApplyOrders(store, orders, sub, catalog, now).Ok?
    ensures PaymentsOf(store, ApplyOrders(store, orders, sub, catalog, now).value, orders, sub, catalog)
  {
    hide UpsertOrder, ApplyOrders, PaymentsOf, UniqueIds, EventTime;
    if orders == [] {
      PaymentsOfNone(store, sub, catalog, now);
    } else {
      var before, order := orders[..|orders| - 1], orders[|orders| - 1];
      assert orders == before + [order];
      UniqueSplits(before, order);
      ApplyOrdersNext(store, before, order, sub, catalog, now);
      PaymentsSettle(store, before, sub, catalog, now);
      PaymentsOfNext(store, before, ApplyOrders(store, before, sub, catalog, now).value, EventTime(order.stamp, now),
                     order, sub, catalog);
    }
  }

  lemma {:induction false} SettledPaymentsStay(store: Store, orders: seq<Order>, sub: ProviderSubscription,
                                               catalog: Catalog, now: Time)
    requires forall o <- orders :: PaymentSettled(store, o, sub, catalog)
    requires ApplyOrders(store, orders, sub, catalog, now).Ok?
    ensures ApplyOrders(store, orders, sub, catalog, now).value.payments == store.payments
  {
    if orders != [] {
      hide UpsertOrder, PaymentSettled;
      var before, order := orders[..|orders| - 1], orders[|orders| - 1];
      assert order in orders;
      SettledPaymentsStay(store, before, sub, catalog, now);
      var s := ApplyOrders(store, before, sub, catalog, now).value;
      SettledCarries(store, s, [order], sub, catalog);
      assert order in [order];
      PaymentStep(s, EventTime(order.stamp, now), order, sub, catalog);
    }
  }

  // Putting the phases together.

  lemma {:induction false} ApplyOrdersInTwo(store: Store, first: seq<Order>, second: seq<Order>,
                                            sub: ProviderSubscription, catalog: Catalog, now: Time)
    ensures var whole := ApplyOrders(store, first + second, sub, catalog, now);
            var part := ApplyOrders(store, first, sub, catalog, now);
            whole == if part.Err? then part else ApplyOrders(part.value, second, sub, catalog, now)
  {
    if second == [] {
      assert first + second == first;
    } else {
      hide UpsertOrder;
      var n := |second| - 1;
      assert (first + second)[..|first + second| - 1] == first + second[..n];
      ApplyOrdersInTwo(store, first, second[..n], sub, catalog, now);
    }
  }

  lemma {:induction false} WhereKeeps(orders: seq<Order>, fullRefund: bool)
    requires UniqueIds(orders)
    ensures UniqueIds(Where(orders, fullRefund))
    ensures forall o <- Where(orders, fullRefund) :: o in orders && FullRefund(o) == fullRefund
  {
    if orders != [] {
      hide FullRefund;
      WhereKeeps(orders[1..], fullRefund);
      assert forall o <- orders[1..] :: o.id != orders[0].id;
    }
  }

  lemma ProjectionOrdersAreUnique(orders: seq<Order>)
    requires UniqueIds(orders)
    ensures UniqueIds(ProjectionOrders(orders))
    ensures forall o <- ProjectionOrders(orders) :: o in orders
    ensures NoFullRefund(Where(orders, false)) && OnlyFullRefunds(Where(orders, true))
  {
    hide FullRefund;
    WhereKeeps(orders, false);
    WhereKeeps(orders, true);
    var paid, refunds := Where(orders, false), Where(orders, true);
    forall p, r | p in paid && r in refunds
      ensures p.id != r.id
    {
      var i :| 0 <= i < |orders| && orders[i] == p;
      var j :| 0 <= j < |orders| && orders[j] == r;
    }
  }

  /** Facts about one listing that both passes share. */
  ghost predicate Listing(orders: seq<Order>, sub: ProviderSubscription) {
    OrdersOf(orders, sub.id) && UniqueIds(orders) && sub.customerId.Some?
  }

  /** The rows after the order phases of the first pass, as the second pass finds them again. */
  lemma {:induction false} OrderPhasesAgain(store: Store, again: Store, paid: seq<Order>, refunds: seq<Order>,
                                            sub: ProviderSubscription, catalog: Catalog, now: Time, later: Time)
    requires OwnRow(store.row, sub.id) && again.row.Some? && OwnRow(again.row, sub.id)
    requires StoredRow(store.row) && StoredRow(again.row)
    requires OrdersOf(paid, sub.id) && NoFullRefund(paid) && OrdersOf(refunds, sub.id) && OnlyFullRefunds(refunds)
    requires ApplyOrders(store, paid + refunds, sub, catalog, now).Ok?
    requires CoveredUntil(again.row) == CoveredUntil(ApplyOrders(store, paid + refunds, sub, catalog, now).value.row)
    requires ApplyOrders(store, paid + refunds, sub, catalog, now).value.revokes <= again.revokes
    ensures ApplyOrders(store, paid, sub, catalog, now).Ok?
    ensures var r := ApplyOrders(store, paid + refunds, sub, catalog, now).value;
            var first := ApplyOrders(store, paid, sub, catalog, now).value;
            var t := ApplyOrders(again, paid + refunds, sub, catalog, later);
            && OwnRow(first.row, sub.id) && r.row == RefundedRow(first.row, refunds, sub, now)
            && t.Ok? && t.value.revokes == again.revokes
            && t.value.row
               == RefundedRow(if Taken(store.row, paid, sub) then first.row else again.row, refunds, sub, later)
  {
    hide UpsertOrder, Storable, Pays, FullRefund, PeriodEnd, FirstCovering, RowAllowed, InStep, Clean, PaidSoFar, Taken;
    var id := sub.id;
    ApplyOrdersInTwo(store, paid, refunds, sub, catalog, now);
    ApplyOrdersInTwo(again, paid, refunds, sub, catalog, later);
    PaidPhase(store, paid, sub, catalog, now);
    var first := ApplyOrders(store, paid, sub, catalog, now).value;
    RefundsWereChecked(first, refunds, sub, catalog, now, id);
    RefundFold(first, refunds, sub, catalog, now, id);
    RefundedCoverage(first.row, refunds, sub, now);
    TakenReaches(store.row, paid, sub, first.row);
    PaidPhaseAgain(store, again, paid, sub, catalog, now, later, id);
    var second := ApplyOrders(again, paid, sub, catalog, later).value;
    InStepRows(store, first, again, second, id, CoveredUntil(first.row), Taken(store.row, paid, sub));
    PaidPhase(again, paid, sub, catalog, later);
    RefundFold(second, refunds, sub, catalog, later, id);
    NoRefundWithoutCoverage(refunds, sub);
  }

  /** A paid order takes an own row over exactly when one of them ends where the row covers in the end. */
  lemma TakenReaches(start: Option<Row>, orders: seq<Order>, sub: ProviderSubscription, row: Option<Row>)
    requires OwnRow(start, sub.id) && PaidSoFar(start, orders, sub, row)
    ensures Taken(start, orders, sub) <==> PaysUntil(orders, sub, CoveredUntil(row))
    ensures CoveredUntil(start) <= CoveredUntil(row) && PaysAtMost(orders, sub, CoveredUntil(row))
  {
    hide Pays, PeriodEnd;
  }

  lemma InStepRows(a: Store, s: Store, b: Store, t: Store, id: string, end: int, reached: bool)
    requires InStep(a, s, b, t, id, end, reached)
    ensures OwnRow(t.row, id) && CoveredUntil(t.row) == end && t.row == if reached then s.row else b.row
  {
    hide CoveredUntil;
  }

  lemma RefundedCoverage(row: Option<Row>, refunds: seq<Order>, sub: ProviderSubscription, now: Time)
    ensures CoveredUntil(RefundedRow(row, refunds, sub, now)) == CoveredUntil(row)
  {
    hide FirstCovering;
  }

  lemma NoRefundWithoutCoverage(refunds: seq<Order>, sub: ProviderSubscription)
    ensures FirstCovering(refunds, sub, -1).None?
  {
  }

  /** What the row covers once all paid orders are projected. */
  ghost function CoverageAfter(row: Option<Row>, orders: seq<Order>, sub: ProviderSubscription): int {
    if Taken(row, orders, sub) then LastPaidEnd(orders, sub) else CoveredUntil(row)
  }

  ghost function LastPaidEnd(orders: seq<Order>, sub: ProviderSubscription): int {
    if orders == [] then -1
    else if Pays(orders[0]) then Max(End(orders[0], sub), LastPaidEnd(orders[1..], sub))
    else LastPaidEnd(orders[1..], sub)
  }

  /** The second pass stores another time than the first: a paid order rewrites the row and its first covering refund
      has no time of its own, or past_due is written anew and neither it nor the subscription has one. */
  ghost predicate ClockShows(row: Option<Row>, orders: seq<Order>, sub: ProviderSubscription) {
    ClockMoves(Taken(row, orders, sub), FirstCovering(Where(orders, true), sub, CoverageAfter(row, orders, sub)), sub)
  }

  lemma {:induction false} LastPaidEndIs(orders: seq<Order>, sub: ProviderSubscription, end: int)
    requires PaysAtMost(orders, sub, end) && end >= -1
    ensures LastPaidEnd(orders, sub) <= end && (PaysUntil(orders, sub, end) ==> LastPaidEnd(orders, sub) == end)
  {
    if orders != [] {
      hide Pays, End;
      assert orders == [orders[0]] + orders[1..];
      LastPaidEndIs(orders[1..], sub, end);
    }
  }

  /** The paid orders decide what is covered after all orders, wherever the refunds stand among them. */
  lemma CoverageAfterIs(start: Option<Row>, orders: seq<Order>, sub: ProviderSubscription, row: Option<Row>)
    requires PaidSoFar(start, Where(orders, false), sub, row)
    ensures CoverageAfter(start, orders, sub) == CoveredUntil(row)
  {
    hide Pays, FullRefund, End, ShouldAdvance, Where, Clean;
    TakenAmongPaid(start, orders, sub);
    var paid, end := Where(orders, false), CoveredUntil(row);
    forall o | Pays(o)
      ensures o in orders <==> o in paid
    {
      PaysOrRefunds(o);
      WhereSplits(orders, o);
    }
    NeverCovered(row);
    LastPaidEndIs(orders, sub, end);
  }

  /** A second projection of the same facts leaves every table as the first one left it, unless the clock shows. */
  lemma {:induction false} ProjectAgain(store: Store, sub: ProviderSubscription, orders: seq<Order>, catalog: Catalog,
                                        graceMs: nat, now: Time, later: Time)
    requires now <= later && OwnRow(store.row, sub.id) && StoredRow(store.row) && Listing(orders, sub)
    requires Project(store, sub, orders, catalog, graceMs, now).Ok?
    ensures var s := Project(store, sub, orders, catalog, graceMs, now).value;
            s.row.Some? && OwnRow(s.row, sub.id) && StoredRow(s.row) && s.customer == sub.customerId
            && (Project(s, sub, orders, catalog, graceMs, later) == Ok(s)
                <==> now == later || !ClockShows(store.row, orders, sub))
  {
    hide UpsertOrder, CheckOrder, Storable, Pays, FullRefund, PeriodEnd, FirstCovering, ApplySnapshot, SnapshotOf,
         PaymentSettled, ApplyOrders, Where, InvalidatedRow, RowAllowed, Taken, Clean, CoverageAfter, ClockMoves,
         PaidSoFar;
    var paid, refunds, all := Where(orders, false), Where(orders, true), ProjectionOrders(orders);
    var at, again := EventTime(sub.stamp, now), EventTime(sub.stamp, later);
    ProjectionOrdersAreUnique(orders);
    assert OrdersOf(paid, sub.id) && OrdersOf(refunds, sub.id) by {
      assert forall o :: o in paid || o in refunds ==> o in all;
    }
    var r := ApplyOrders(store, all, sub, catalog, now).value;
    ApplyOrdersInTwo(store, paid, refunds, sub, catalog, now);
    var first := ApplyOrders(store, paid, sub, catalog, now).value;
    PaidPhase(store, paid, sub, catalog, now);
    TakenAmongPaid(store.row, orders, sub);
    CoverageAfterIs(store.row, orders, sub, first.row);
    var taken := Taken(store.row, orders, sub);
    CleanWhenTaken(store.row, paid, sub, first.row);
    RefundsWereChecked(first, refunds, sub, catalog, now, sub.id);
    RefundFold(first, refunds, sub, catalog, now, sub.id);
    OwnAfterRefunds(first.row, refunds, sub, now);
    SnapshotPhase(r, sub, catalog, graceMs, at);
    SettledRow(first.row, taken, refunds, sub, catalog, graceMs, now, later);
    RefundedCoverage(first.row, refunds, sub, now);
    var s := Project(store, sub, orders, catalog, graceMs, now).value;
    OrderPhasesAgain(store, s, paid, refunds, sub, catalog, now, later);
    var t := ApplyOrders(s, all, sub, catalog, later).value;
    OwnAfterRefunds(if taken then first.row else s.row, refunds, sub, later);
    SnapshotPhase(t, sub, catalog, graceMs, again);
    PaymentsSettle(store, all, sub, catalog, now);
    SettledCarries(r, s, all, sub, catalog);
    SettledPaymentsStay(s, all, sub, catalog, later);
  }

  lemma CleanWhenTaken(start: Option<Row>, orders: seq<Order>, sub: ProviderSubscription, row: Option<Row>)
    requires PaidSoFar(start, orders, sub, row)
    ensures Taken(start, orders, sub) ==> Clean(row)
  {
    hide Pays, ShouldAdvance, PaysAtMost, PaysUntil, Clean;
  }

  lemma OwnAfterRefunds(row: Option<Row>, refunds: seq<Order>, sub: ProviderSubscription, now: Time)
    requires OwnRow(row, sub.id)
    ensures OwnRow(RefundedRow(row, refunds, sub, now), sub.id)
  {
    hide FirstCovering;
  }

  lemma SettledCarries(a: Store, b: Store, orders: seq<Order>, sub: ProviderSubscription, catalog: Catalog)
    requires a.payments == b.payments && forall o <- orders :: PaymentSettled(a, o, sub, catalog)
    ensures forall o <- orders :: PaymentSettled(b, o, sub, catalog)
  {
    hide CheckOrder, PaymentRow;
  }

  // The whole pass, run twice on one listing.

  lemma CurrentShrinks(subs: seq<ProviderSubscription>, now: Time, later: Time)
    requires now <= later
    ensures |Current(subs, later)| <= |Current(subs, now)|
    ensures forall s <- Current(subs, later) :: s in Current(subs, now)
    ensures forall s <- Current(subs, now) :: s in subs && s.id != ""
  {
    hide IsCurrent;
    if subs != [] {
      CurrentShrinks(subs[1..], now, later);
      StillCurrent(subs[0], now, later);
    }
  }

  lemma StillCurrent(sub: ProviderSubscription, now: Time, later: Time)
    requires now <= later
    ensures IsCurrent(sub, later) ==> IsCurrent(sub, now)
  {
  }

  lemma {:induction false} ValidMembers(subs: seq<ProviderSubscription>)
    ensures forall s <- Valid(subs) :: s in subs && s.id != ""
  {
    if subs != [] {
      ValidMembers(subs[1..]);
    }
  }

  lemma {:induction false} NamedMembers(subs: seq<ProviderSubscription>, id: string)
    ensures forall s <- Named(subs, id) :: s in subs && s.id == id
  {
    if subs != [] {
      NamedMembers(subs[1..], id);
    }
  }

  lemma {:induction false} NamedAmongValid(subs: seq<ProviderSubscription>, id: string)
    requires id != ""
    ensures Named(Valid(subs), id) == Named(subs, id)
  {
    if subs != [] && subs[0].id != "" {
      assert Valid(subs)[0] == subs[0] && Valid(subs)[1..] == Valid(subs[1..]);
      NamedAmongValid(subs[1..], id);
    } else if subs != [] {
      assert Valid(subs) == Valid(subs[1..]) && Named(subs, id) == Named(subs[1..], id);
      NamedAmongValid(subs[1..], id);
    }
  }

  lemma {:induction false} NamedIsUnique(subs: seq<ProviderSubscription>, sub: ProviderSubscription)
    requires sub in subs && forall i, j | 0 <= i < j < |subs| :: subs[i].id != subs[j].id
    ensures Named(subs, sub.id) == [sub]
  {
    if sub == subs[0] {
      NoneNamed(subs[1..], sub.id);
    } else {
      NamedIsUnique(subs[1..], sub);
    }
  }

  lemma {:induction false} NoneNamed(subs: seq<ProviderSubscription>, id: string)
    requires forall s <- subs :: s.id != id
    ensures Named(subs, id) == []
  {
    if subs != [] {
      NoneNamed(subs[1..], id);
    }
  }

  lemma ChosenIsListed(subs: seq<ProviderSubscription>, localId: Option<string>, now: Time)
    requires SelectSubscription(subs, localId, now).Chosen?
    ensures var sub := SelectSubscription(subs, localId, now).sub;
            sub in subs && sub.id != "" && (Current(subs, now) == [] || Current(subs, now) == [sub])
  {
    hide Current, Valid, Named, IsCurrent;
    CurrentShrinks(subs, now, now);
    ValidMembers(subs);
    if localId.Some? {
      NamedMembers(Valid(subs), localId.value);
    }
  }

  /** Once chosen, and stored, a subscription of a clear listing stays the choice at every later time. */
  lemma {:induction false} SelectionIsStable(subs: seq<ProviderSubscription>, localId: Option<string>, now: Time,
                                             later: Time)
    requires now <= later && SelectSubscription(subs, localId, now).Chosen?
    requires forall i, j | 0 <= i < j < |subs| :: subs[i].id != subs[j].id
    ensures var sub := SelectSubscription(subs, localId, now).sub;
            && sub in subs && sub.id != "" && Named(subs, sub.id) == [sub]
            && SelectSubscription(subs, Some(sub.id), later) == Chosen(sub)
  {
    hide Current, Valid, Named, IsCurrent;
    var sub, current := SelectSubscription(subs, localId, now).sub, Current(subs, later);
    CurrentShrinks(subs, now, later);
    ChosenIsListed(subs, localId, now);
    NamedIsUnique(subs, sub);
    NamedAmongValid(subs, sub.id);
    if |current| == 1 {
      assert current[0] in Current(subs, now);
    }
  }

  lemma {:induction false} RelevantMembers(orders: seq<Order>, id: string)
    requires UniqueIds(orders)
    ensures OrdersOf(RelevantOrders(orders, id), id) && UniqueIds(RelevantOrders(orders, id))
    ensures forall o <- RelevantOrders(orders, id) :: o in orders
  {
    if orders != [] {
      RelevantMembers(orders[1..], id);
      assert forall o <- orders[1..] :: o.id != orders[0].id;
    }
  }

  // A stored row about something else: a paid order takes it over, or the snapshot moves it.

  /** The offer a safe subscription is sold under. */
  ghost function OfferOf(sub: ProviderSubscription, catalog: Catalog): Offer
    requires ResolveOffer(catalog, sub.productId, sub.priceId).Ok?
  {
    ResolveOffer(catalog, sub.productId, sub.priceId).value
  }

  ghost predicate CoveringRefund(orders: seq<Order>, sub: ProviderSubscription, end: int) {
    end > -1 && exists o <- orders :: FullRefund(o) && End(o, sub) >= end
  }

  /** The snapshot that moves the row schedules a change to the plan it is moved to. */
  ghost predicate RecordsChange(row: Row, sub: ProviderSubscription, offer: Offer) {
    && Replacing(Some(row), sub.id) && sub.pendingUpdate.None? && NormalizeStatus(sub.status) != "past_due"
    && row.planId != FREE && offer.planId != row.planId && row.paidThrough.Some?
  }

  /** The times a second pass would store after a refund cleared them differ from those stored now: they are there and
      are not the ones the provider's past_due time, or failing that the time of the pass, gives again. */
  ghost predicate ClearingShows(row: Row, sub: ProviderSubscription, offer: Offer, graceMs: nat, now: Time, later: Time)
  {
    var pastDue := NormalizeStatus(sub.status) == "past_due";
    var due := if sub.pastDueAt.Some? then sub.pastDueAt.value else EventTime(sub.stamp, later);
    || (row.pastDueAt.Some? && !(pastDue && row.pastDueAt.value == due))
    || (row.pastDueAt.None? && now < later && DueByClock(sub))
    || (row.graceUntil.Some?
        && !(pastDue && SnapshotPlan(Some(row), sub, offer) != FREE && row.graceUntil.value == due + graceMs))
  }

  /** A full refund of the subscription covers what the moved row inherited, and invalidating it is visible. */
  ghost predicate RefundShows(store: Store, orders: seq<Order>, sub: ProviderSubscription, offer: Offer, graceMs: nat,
                              now: Time, later: Time)
    requires store.row.Some?
  {
    && CoveringRefund(orders, sub, CoveredUntil(store.row))
    && (sub.id !in store.revokes || store.row.value.invalidatedAt.None?
        || ClearingShows(store.row.value, sub, offer, graceMs, now, later))
  }

  /** What a caller can check before the first pass: the second one, at `later`, will find nothing to change. */
  ghost predicate WillSettle(store: Store, orders: seq<Order>, sub: ProviderSubscription, catalog: Catalog,
                             graceMs: nat, now: Time, later: Time)
    requires ResolveOffer(catalog, sub.productId, sub.priceId).Ok?
  {
    if OwnRow(store.row, sub.id) || Taken(store.row, orders, sub) then
      now == later || !ClockShows(store.row, orders, sub)
    else
      !RecordsChange(store.row.value, sub, OfferOf(sub, catalog))
      && !RefundShows(store, orders, sub, OfferOf(sub, catalog), graceMs, now, later)
  }

  // Taken over: from there on the pass is one that started without a row.

  /** No row, instead of one about another subscription; a row that names none is taken to be about this one. */
  ghost function Forget(store: Store, id: string): Store {
    if Replacing(store.row, id) || store.row.None? then store.(row := None)
    else store.(row := Some(store.row.value.(subscriptionId := Some(id))))
  }

  /** `t` runs on the forgotten row while `s` still holds the stored one, until an order takes it over. */
  ghost predicate Forgetting(row: Option<Row>, s: Store, t: Store, id: string, taken: bool) {
    if taken then s == t && OwnRow(t.row, id) else s.row == row && t == Forget(s, id)
  }

  lemma ForgettingStep(row: Option<Row>, s: Store, t: Store, at: Time, order: Order, sub: ProviderSubscription,
                       catalog: Catalog, taken: bool)
    requires Forgetting(row, s, t, sub.id, taken) && row.Some? && !FullRefund(order)
    requires order.subscriptionId == Some(sub.id) && UpsertOrder(s, at, order, Some(sub), catalog).Ok?
    ensures UpsertOrder(t, at, order, Some(sub), catalog).Ok?
    ensures var takes := Pays(order) && ShouldAdvance(row, sub.id, PeriodEnd(order, Some(sub)));
            Forgetting(row, UpsertOrder(s, at, order, Some(sub), catalog).value,
                       UpsertOrder(t, at, order, Some(sub), catalog).value, sub.id, taken || takes)
  {
    hide ResolveOffer, PaidNextPlan, PaymentRow, PeriodEnd, Pays, PeriodValid, CurrencyValid, FullRefund, RowAllowed;
  }

  lemma {:induction false} ForgettingFold(store: Store, orders: seq<Order>, sub: ProviderSubscription, catalog: Catalog,
                                          now: Time)
    requires store.row.Some? && OrdersOf(orders, sub.id) && NoFullRefund(orders)
    requires ApplyOrders(store, orders, sub, catalog, now).Ok?
    ensures ApplyOrders(Forget(store, sub.id), orders, sub, catalog, now).Ok?
    ensures Forgetting(store.row, ApplyOrders(store, orders, sub, catalog, now).value,
                       ApplyOrders(Forget(store, sub.id), orders, sub, catalog, now).value, sub.id,
                       Taken(store.row, orders, sub))
  {
    if orders != [] {
      hide UpsertOrder, Pays, FullRefund, PeriodEnd, ShouldAdvance, Forgetting, Forget;
      var before, order := orders[..|orders| - 1], orders[|orders| - 1];
      assert orders == before + [order] && order in orders;
      ForgettingFold(store, before, sub, catalog, now);
      ForgettingStep(store.row, ApplyOrders(store, before, sub, catalog, now).value,
                     ApplyOrders(Forget(store, sub.id), before, sub, catalog, now).value,
                     EventTime(order.stamp, now), order, sub, catalog, Taken(store.row, before, sub));
    } else {
      hide UpsertOrder;
    }
  }

  lemma {:induction false} WhereSplits(orders: seq<Order>, order: Order)
    ensures order in orders <==> order in Where(orders, FullRefund(order))
  {
    if orders != [] {
      hide FullRefund;
      WhereSplits(orders[1..], order);
    }
  }

  lemma TakenAmongPaid(row: Option<Row>, orders: seq<Order>, sub: ProviderSubscription)
    ensures Taken(row, orders, sub) <==> Taken(row, Where(orders, false), sub)
  {
    hide Pays, FullRefund, PeriodEnd, ShouldAdvance, Where;
    forall o | Pays(o)
      ensures o in orders <==> o in Where(orders, false)
    {
      PaysOrRefunds(o);
      WhereSplits(orders, o);
    }
  }

  /** A paid order that takes the row over makes the projection forget what was stored before it. */
  lemma TakenForgets(store: Store, sub: ProviderSubscription, orders: seq<Order>, catalog: Catalog, graceMs: nat,
                     now: Time)
    requires Listing(orders, sub) && Taken(store.row, orders, sub) && store.row.Some?
    requires Project(store, sub, orders, catalog, graceMs, now).Ok?
    ensures Project(Forget(store, sub.id), sub, orders, catalog, graceMs, now)
         == Project(store, sub, orders, catalog, graceMs, now)
  {
    hide UpsertOrder, Pays, FullRefund, PeriodEnd, ShouldAdvance, ApplySnapshot, Where, ApplyOrders, Taken, Forget;
    var paid, refunds := Where(orders, false), Where(orders, true);
    ProjectionOrdersAreUnique(orders);
    assert OrdersOf(paid, sub.id) by {
      assert forall o :: o in paid ==> o in ProjectionOrders(orders);
    }
    TakenAmongPaid(store.row, orders, sub);
    ApplyOrdersInTwo(store, paid, refunds, sub, catalog, now);
    ApplyOrdersInTwo(Forget(store, sub.id), paid, refunds, sub, catalog, now);
    ForgettingFold(store, paid, sub, catalog, now);
  }

  // Moved by the snapshot alone.

  lemma MovedStep(store: Store, at: Time, order: Order, sub: ProviderSubscription, catalog: Catalog)
    requires store.row.Some? && !OwnRow(store.row, sub.id) && order.subscriptionId == Some(sub.id)
    requires !(Pays(order) && ShouldAdvance(store.row, sub.id, PeriodEnd(order, Some(sub))))
    requires UpsertOrder(store, at, order, Some(sub), catalog).Ok?
    ensures var s := UpsertOrder(store, at, order, Some(sub), catalog).value;
            s.row == store.row && s.revokes == store.revokes
  {
    hide ResolveOffer, PaidNextPlan, PaymentRow, PeriodEnd, Pays, PeriodValid, CurrencyValid, FullRefund, RowAllowed;
  }

  /** Orders that neither take over nor belong to the stored row leave it alone. */
  lemma {:induction false} MovedFold(store: Store, orders: seq<Order>, sub: ProviderSubscription, catalog: Catalog,
                                     now: Time)
    requires store.row.Some? && !OwnRow(store.row, sub.id) && OrdersOf(orders, sub.id) && !Taken(store.row, orders, sub)
    requires ApplyOrders(store, orders, sub, catalog, now).Ok?
    ensures var s := ApplyOrders(store, orders, sub, catalog, now).value;
            s.row == store.row && s.revokes == store.revokes
  {
    if orders != [] {
      hide UpsertOrder, Pays, PeriodEnd, ShouldAdvance, OwnRow;
      var before, order := orders[..|orders| - 1], orders[|orders| - 1];
      assert orders == before + [order] && order in orders;
      MovedFold(store, before, sub, catalog, now);
      MovedStep(ApplyOrders(store, before, sub, catalog, now).value, EventTime(order.stamp, now), order, sub, catalog);
    } else {
      hide UpsertOrder;
    }
  }

  ghost predicate PaysBelow(orders: seq<Order>, sub: ProviderSubscription, end: int) {
    forall o <- orders :: Pays(o) ==> End(o, sub) < end
  }

  lemma IdleStep(store: Store, at: Time, order: Order, sub: ProviderSubscription, catalog: Catalog)
    requires store.row.Some? && OwnRow(store.row, sub.id) && order.subscriptionId == Some(sub.id) && !FullRefund(order)
    requires (Pays(order) ==> End(order, sub) < CoveredUntil(store.row)) && Storable(order, Some(sub), catalog)
    ensures UpsertOrder(store, at, order, Some(sub), catalog).Ok?
    ensures var s := UpsertOrder(store, at, order, Some(sub), catalog).value;
            s.row == store.row && s.revokes == store.revokes
  {
    hide ResolveOffer, PaidNextPlan, PaymentRow, PeriodEnd, Pays, PeriodValid, CurrencyValid, FullRefund, RowAllowed;
  }

  /** Paid orders that end before the row's coverage leave the row alone. */
  lemma {:induction false} IdleFold(store: Store, orders: seq<Order>, sub: ProviderSubscription, catalog: Catalog,
                                    now: Time)
    requires store.row.Some? && OwnRow(store.row, sub.id) && OrdersOf(orders, sub.id) && NoFullRefund(orders)
    requires PaysBelow(orders, sub, CoveredUntil(store.row)) && forall o <- orders :: Storable(o, Some(sub), catalog)
    ensures ApplyOrders(store, orders, sub, catalog, now).Ok?
    ensures var s := ApplyOrders(store, orders, sub, catalog, now).value;
            s.row == store.row && s.revokes == store.revokes
  {
    if orders != [] {
      hide UpsertOrder, Pays, End, FullRefund, OwnRow, Storable, CoveredUntil;
      var before, order := orders[..|orders| - 1], orders[|orders| - 1];
      assert orders == before + [order] && order in orders;
      IdleFold(store, before, sub, catalog, now);
      IdleStep(ApplyOrders(store, before, sub, catalog, now).value, EventTime(order.stamp, now), order, sub, catalog);
    } else {
      hide UpsertOrder;
    }
  }

  lemma {:induction false} FirstRefundExists(orders: seq<Order>, sub: ProviderSubscription, end: int)
    requires OnlyFullRefunds(orders) && end >= -1
    ensures FirstCovering(orders, sub, end).Some? <==> CoveringRefund(orders, sub, end)
  {
    if orders != [] {
      hide FullRefund, End;
      var before, order := orders[..|orders| - 1], orders[|orders| - 1];
      assert orders == before + [order] && order in orders;
      FirstRefundExists(before, sub, end);
    }
  }

  lemma CoveringAmongRefunds(orders: seq<Order>, sub: ProviderSubscription, end: int)
    ensures CoveringRefund(orders, sub, end) <==> CoveringRefund(Where(orders, true), sub, end)
  {
    hide FullRefund, End, Where;
    forall o | FullRefund(o)
      ensures o in orders <==> o in Where(orders, true)
    {
      WhereSplits(orders, o);
    }
  }

  /** The scheduled plan after the snapshot that moves a row is the one the next snapshot finds, unless it recorded a
      change. */
  lemma MovedNextPlan(row: Row, sub: ProviderSubscription, catalog: Catalog, offer: Offer, again: Row)
    requires !OwnRow(Some(row), sub.id) && PendingPlan(catalog, sub, Some(row), offer).Ok?
    requires again.subscriptionId == Some(sub.id) && again.planId == SnapshotPlan(Some(row), sub, offer)
    requires again.paidThrough == row.paidThrough && again.next == PendingPlan(catalog, sub, Some(row), offer).value
    ensures PendingPlan(catalog, sub, Some(again), offer).Ok?
    ensures PendingPlan(catalog, sub, Some(again), offer) == PendingPlan(catalog, sub, Some(row), offer)
            <==> !RecordsChange(row, sub, offer)
  {
    hide ResolveOffer, NormalizeStatus;
  }

  /** What a second snapshot makes of a moved row, when a refund (or none) came before it. */
  lemma MovedSnapshot(row: Row, sub: ProviderSubscription, catalog: Catalog, graceMs: nat, now: Time, later: Time,
                      refund: Option<Order>)
    requires now <= later && !OwnRow(Some(row), sub.id) && RowAllowed(row)
    requires SnapshotOf(Some(row), sub, catalog, graceMs, EventTime(sub.stamp, now)).Some?
    requires refund.Some? ==> row.paidThrough.Some?
    ensures var offer := OfferOf(sub, catalog);
            var s := SnapshotOf(Some(row), sub, catalog, graceMs, EventTime(sub.stamp, now)).value;
            SnapshotOf(Some(RefundedBy(s, refund, later)), sub, catalog, graceMs,
                       EventTime(sub.stamp, later)) == Some(s)
            <==> (!RecordsChange(row, sub, offer)
                  && (refund.Some? ==> row.invalidatedAt.Some?
                                       && !ClearingShows(row, sub, offer, graceMs, now, later)))
  {
    hide ResolveOffer, PendingPlan, RecordsChange, RowAllowed, NormalizeStatus;
    var offer := OfferOf(sub, catalog);
    var s := SnapshotOf(Some(row), sub, catalog, graceMs, EventTime(sub.stamp, now)).value;
    MovedNextPlan(row, sub, catalog, offer, RefundedBy(s, refund, later));
    AllowedShape(row);
  }

  lemma AllowedShape(row: Row)
    requires RowAllowed(row)
    ensures row.invalidatedAt.Some? <==> row.invalidationReason.Some?
    ensures row.graceUntil.Some? ==> row.pastDueAt.Some?
  {
  }

  lemma ForgottenIsOwn(store: Store, id: string)
    ensures OwnRow(Forget(store, id).row, id) && (StoredRow(store.row) ==> StoredRow(Forget(store, id).row))
  {
  }

  /** The orders of the first projection, when none of them takes over the row. */
  lemma MovedOrders(store: Store, sub: ProviderSubscription, orders: seq<Order>, catalog: Catalog, now: Time)
    requires store.row.Some? && !OwnRow(store.row, sub.id) && Listing(orders, sub) && !Taken(store.row, orders, sub)
    requires ApplyOrders(store, ProjectionOrders(orders), sub, catalog, now).Ok?
    ensures var r := ApplyOrders(store, ProjectionOrders(orders), sub, catalog, now).value;
            && r.row == store.row && r.revokes == store.revokes
            && forall o <- ProjectionOrders(orders) :: PaymentSettled(r, o, sub, catalog)
                                                       && Storable(o, Some(sub), catalog)
  {
    hide UpsertOrder, Pays, FullRefund, PeriodEnd, ShouldAdvance, Where, ApplyOrders, PaymentSettled, Storable, OwnRow;
    var all := ProjectionOrders(orders);
    ProjectionOrdersAreUnique(orders);
    MovedFold(store, all, sub, catalog, now);
    PaymentsSettle(store, all, sub, catalog, now);
    RefundsWereChecked(store, all, sub, catalog, now, sub.id);
  }

  /** The same orders over the moved row: only a full refund that covers what it inherited still acts. */
  lemma OrdersAfterMove(row: Row, s: Store, sub: ProviderSubscription, orders: seq<Order>, catalog: Catalog,
                        later: Time)
    requires !OwnRow(Some(row), sub.id) && !Taken(Some(row), orders, sub) && Listing(orders, sub)
    requires s.row.Some? && OwnRow(s.row, sub.id) && StoredRow(s.row) && CoveredUntil(s.row) == CoveredUntil(Some(row))
    requires forall o <- ProjectionOrders(orders) :: PaymentSettled(s, o, sub, catalog)
                                                     && Storable(o, Some(sub), catalog)
    ensures var t := ApplyOrders(s, ProjectionOrders(orders), sub, catalog, later);
            var refund := FirstCovering(Where(orders, true), sub, CoveredUntil(s.row));
            && (refund.Some? <==> CoveringRefund(orders, sub, CoveredUntil(s.row)))
            && t.Ok? && t.value.payments == s.payments
            && t.value.row == RefundedRow(s.row, Where(orders, true), sub, later)
            && t.value.revokes == if refund.Some? then s.revokes + {sub.id} else s.revokes
  {
    hide UpsertOrder, Pays, FullRefund, Where, ApplyOrders, PaymentSettled, Storable, RowAllowed, FirstCovering,
         CoveringRefund, PeriodEnd;
    var paid, refunds, all := Where(orders, false), Where(orders, true), ProjectionOrders(orders);
    ProjectionOrdersAreUnique(orders);
    assert OrdersOf(paid, sub.id) && OrdersOf(refunds, sub.id) by {
      assert forall o :: o in paid || o in refunds ==> o in all;
    }
    assert PaysBelow(paid, sub, CoveredUntil(s.row)) by {
      assert forall o <- paid :: o in all;
    }
    ApplyOrdersInTwo(s, paid, refunds, sub, catalog, later);
    IdleFold(s, paid, sub, catalog, later);
    RefundFold(ApplyOrders(s, paid, sub, catalog, later).value, refunds, sub, catalog, later, sub.id);
    NeverCovered(s.row);
    FirstRefundExists(refunds, sub, CoveredUntil(s.row));
    CoveringAmongRefunds(orders, sub, CoveredUntil(s.row));
    SettledPaymentsStay(s, all, sub, catalog, later);
  }

  /** The row a snapshot leaves is its own, and covers what the row before it covered. */
  lemma SnapshotOwns(row: Row, sub: ProviderSubscription, catalog: Catalog, graceMs: nat, at: Time)
    requires SnapshotOf(Some(row), sub, catalog, graceMs, at).Some?
    ensures var s := SnapshotOf(Some(row), sub, catalog, graceMs, at);
            OwnRow(s, sub.id) && StoredRow(s) && CoveredUntil(s) == CoveredUntil(Some(row))
  {
    hide ResolveOffer, PendingPlan, RowAllowed, SnapshotPastDue, SnapshotGrace, SnapshotPlan;
  }

  /** The second projection after one that moved a row no order took over. */
  lemma {:induction false} MovedAgain(store: Store, sub: ProviderSubscription, orders: seq<Order>, catalog: Catalog,
                                      graceMs: nat, now: Time, later: Time)
    requires now <= later && store.row.Some? && !OwnRow(store.row, sub.id) && StoredRow(store.row)
    requires Listing(orders, sub) && !Taken(store.row, orders, sub)
    requires Project(store, sub, orders, catalog, graceMs, now).Ok?
    requires ResolveOffer(catalog, sub.productId, sub.priceId).Ok?
    ensures var s := Project(store, sub, orders, catalog, graceMs, now).value;
            Project(s, sub, orders, catalog, graceMs, later) == Ok(s)
            <==> WillSettle(store, orders, sub, catalog, graceMs, now, later)
  {
    hide UpsertOrder, ApplySnapshot, SnapshotOf, PaymentSettled, ApplyOrders, ProjectionOrders, InvalidatedRow,
         Storable, FirstCovering, RecordsChange, ClearingShows, Taken, CoveringRefund, OwnRow, StoredRow, CoveredUntil,
         OrdersOf, Where, ClockShows;
    var all, at, again := ProjectionOrders(orders), EventTime(sub.stamp, now), EventTime(sub.stamp, later);
    MovedOrders(store, sub, orders, catalog, now);
    var r := ApplyOrders(store, all, sub, catalog, now).value;
    AnySnapshotPhase(r, sub, catalog, graceMs, at);
    SnapshotOwns(store.row.value, sub, catalog, graceMs, at);
    var s := Project(store, sub, orders, catalog, graceMs, now).value;
    SettledCarries(r, s, all, sub, catalog);
    OrdersAfterMove(store.row.value, s, sub, orders, catalog, later);
    var t := ApplyOrders(s, all, sub, catalog, later).value;
    OwnAfterRefunds(s.row, Where(orders, true), sub, later);
    AnySnapshotPhase(t, sub, catalog, graceMs, again);
    StoredIsAllowed(store.row.value);
    var refund := FirstCovering(Where(orders, true), sub, CoveredUntil(s.row));
    CoveringNeedsCoverage(store.row.value, orders, sub);
    MovedSnapshot(store.row.value, sub, catalog, graceMs, now, later, refund);
    assert t.row == Some(RefundedBy(s.row.value, refund, later));
    assert s.row == SnapshotOf(store.row, sub, catalog, graceMs, at);
    assert WillSettle(store, orders, sub, catalog, graceMs, now, later)
      <==> SnapshotOf(t.row, sub, catalog, graceMs, again) == s.row && t.revokes == s.revokes;
  }

  lemma CoveringNeedsCoverage(row: Row, orders: seq<Order>, sub: ProviderSubscription)
    ensures CoveringRefund(orders, sub, CoveredUntil(Some(row))) ==> row.paidThrough.Some?
  {
    hide FullRefund, End;
  }

  lemma StoredIsAllowed(row: Row)
    requires StoredRow(Some(row))
    ensures RowAllowed(row)
  {
    hide RowAllowed;
  }

  /** A second pass over the same listing changes no table and reports no repair if and only if the first one will
      settle. */
  lemma ReconcileAgain(store: Store, subs: seq<ProviderSubscription>, orders: seq<Order>, uncertain: bool,
                       catalog: Catalog, graceMs: nat, now: Time, later: Time, uncertainLater: bool)
    requires now <= later && Reconcile(store, subs, orders, uncertain, catalog, graceMs, now).1.Reconciled?
    requires StoredRow(store.row)
    ensures var sub := SelectSubscription(subs, LocalId(store), now).sub;
            var s := Reconcile(store, subs, orders, uncertain, catalog, graceMs, now).0;
            && SafeSubscription(sub, catalog)
            && (Reconcile(s, subs, orders, uncertainLater, catalog, graceMs, later) == (s, Reconciled(false))
                <==> WillSettle(store, RelevantOrders(orders, sub.id), sub, catalog, graceMs, now, later))
  {
    hide SelectSubscription, Named, FirstProblem, RelevantOrders, Project, WillSettle, StoredRow, ResolveOffer;
    var sub := SelectSubscription(subs, LocalId(store), now).sub;
    SelectionIsStable(subs, LocalId(store), now, later);
    RelevantMembers(orders, sub.id);
    var relevant := RelevantOrders(orders, sub.id);
    ProjectionNamesTheSubscription(store, sub, relevant, catalog, graceMs, now);
    ProjectAgainExactly(store, sub, relevant, catalog, graceMs, now, later);
  }

  lemma ProjectAgainExactly(store: Store, sub: ProviderSubscription, orders: seq<Order>, catalog: Catalog, graceMs: nat,
                            now: Time, later: Time)
    requires now <= later && StoredRow(store.row) && Listing(orders, sub) && SafeSubscription(sub, catalog)
    requires Project(store, sub, orders, catalog, graceMs, now).Ok?
    ensures var s := Project(store, sub, orders, catalog, graceMs, now).value;
            && s.customer == sub.customerId
            && (Project(s, sub, orders, catalog, graceMs, later) == Ok(s)
                <==> WillSettle(store, orders, sub, catalog, graceMs, now, later))
  {
    hide Project, OwnRow, Taken, Listing, RecordsChange, RefundShows, StoredRow, Forget, ResolveOffer, ClockShows;
    if OwnRow(store.row, sub.id) {
      ProjectAgain(store, sub, orders, catalog, graceMs, now, later);
    } else if Taken(store.row, orders, sub) {
      SomeRow(store.row, sub.id);
      TakenForgets(store, sub, orders, catalog, graceMs, now);
      ForgottenIsOwn(store, sub.id);
      ProjectAgain(Forget(store, sub.id), sub, orders, catalog, graceMs, now, later);
      ForgottenClock(store, orders, sub);
    } else {
      SomeRow(store.row, sub.id);
      MovedAgain(store, sub, orders, catalog, graceMs, now, later);
      ProjectionSetsCustomer(store, sub, orders, catalog, graceMs, now);
    }
  }

  /** A row that is taken over shows the clock exactly when the forgotten one does. */
  lemma ForgottenClock(store: Store, orders: seq<Order>, sub: ProviderSubscription)
    requires store.row.Some? && Taken(store.row, orders, sub)
    ensures ClockShows(Forget(store, sub.id).row, orders, sub) <==> ClockShows(store.row, orders, sub)
  {
    hide Pays, PeriodEnd, FirstCovering, ClockMoves, LastPaidEnd;
    var o :| o in orders && Pays(o) && ShouldAdvance(store.row, sub.id, PeriodEnd(o, Some(sub)));
    assert ShouldAdvance(Forget(store, sub.id).row, sub.id, PeriodEnd(o, Some(sub)));
  }

  /** Where every object carries a time of its own the clock never shows. */
  lemma {:induction false} StampedNeverShows(row: Option<Row>, orders: seq<Order>, sub: ProviderSubscription)
    requires Stamped(orders) && sub.stamp.Some?
    ensures !ClockShows(row, orders, sub)
  {
    hide Taken, CoverageAfter, Where, FirstCovering, NormalizeStatus;
    var refunds, end := Where(orders, true), CoverageAfter(row, orders, sub);
    FirstCoveringIsListed(refunds, sub, end);
    var first := FirstCovering(refunds, sub, end);
    if first.Some? {
      OnlyListed(orders, true, first.value);
    }
  }

  lemma {:induction false} FirstCoveringIsListed(refunds: seq<Order>, sub: ProviderSubscription, end: int)
    ensures FirstCovering(refunds, sub, end).Some? ==> FirstCovering(refunds, sub, end).value in refunds
  {
    if refunds != [] {
      hide End;
      FirstCoveringIsListed(refunds[..|refunds| - 1], sub, end);
    }
  }

  lemma {:induction false} OnlyListed(orders: seq<Order>, fullRefund: bool, order: Order)
    requires order in Where(orders, fullRefund)
    ensures order in orders
  {
    hide FullRefund;
    if orders != [] && order != orders[0] {
      OnlyListed(orders[1..], fullRefund, order);
    }
  }

  lemma SomeRow(row: Option<Row>, id: string)
    requires !OwnRow(row, id)
    ensures row.Some?
  {
  }

  lemma ProjectionSetsCustomer(store: Store, sub: ProviderSubscription, orders: seq<Order>, catalog: Catalog,
                               graceMs: nat, now: Time)
    requires Project(store, sub, orders, catalog, graceMs, now).Ok? && Listing(orders, sub)
    ensures Project(store, sub, orders, catalog, graceMs, now).value.customer == sub.customerId
  {
    hide ApplyOrders, ResolveOffer, PendingPlan, Replaceable, SnapshotRow, RowAllowed, OrdersOf;
  }

  lemma ProjectionNamesTheSubscription(store: Store, sub: ProviderSubscription, orders: seq<Order>, catalog: Catalog,
                                       graceMs: nat, now: Time)
    requires Project(store, sub, orders, catalog, graceMs, now).Ok?
    ensures var s := Project(store, sub, orders, catalog, graceMs, now).value;
            LocalId(s) == Some(sub.id) && StoredRow(s.row)
  {
    hide ApplyOrders, ResolveOffer, PendingPlan, Replaceable, RowAllowed;
  }

  /** From any stored row the third pass is the second, unless the clock shows: one pass may be needed to move the row
      to the subscription. */
  lemma {:induction false} TwoPassesSettle(store: Store, subs: seq<ProviderSubscription>, orders: seq<Order>,
                                           uncertain: bool, catalog: Catalog, graceMs: nat, now: Time, later: Time,
                                           latest: Time)
    requires now <= later <= latest && Reconcile(store, subs, orders, uncertain, catalog, graceMs, now).1.Reconciled?
    requires Reconcile(Reconcile(store, subs, orders, uncertain, catalog, graceMs, now).0,
                       subs, orders, uncertain, catalog, graceMs, later).1.Reconciled?
    ensures var sub := SelectSubscription(subs, LocalId(store), now).sub;
            var s := Reconcile(store, subs, orders, uncertain, catalog, graceMs, now).0;
            var t := Reconcile(s, subs, orders, uncertain, catalog, graceMs, later).0;
            Reconcile(t, subs, orders, uncertain, catalog, graceMs, latest) == (t, Reconciled(false))
            <==> later == latest || !ClockShows(s.row, RelevantOrders(orders, sub.id), sub)
  {
    hide SelectSubscription, Named, FirstProblem, SafeSubscription, RelevantOrders, Project, ClockShows, Taken;
    var sub := SelectSubscription(subs, LocalId(store), now).sub;
    SelectionIsStable(subs, LocalId(store), now, later);
    ProjectionNamesTheSubscription(store, sub, RelevantOrders(orders, sub.id), catalog, graceMs, now);
    var s := Reconcile(store, subs, orders, uncertain, catalog, graceMs, now).0;
    ReconcileAgain(s, subs, orders, uncertain, catalog, graceMs, later, latest, uncertain);
  }

  // A listing on which the second pass does change the row, and one without times on which every pass does.

  const OFFERS: Catalog := [
    Offer("entry-monthly", "paid_entry", "month", "prod-entry", "price-entry", "eur"),
    Offer("highest-monthly", "highest_paid", "month", "prod-highest", "price-highest", "eur")]

  function HighestSubscription(status: string, from: Time, stamp: Option<Time>): ProviderSubscription {
    ProviderSubscription("sub-new", Some("cus"), Some("prod-highest"), Some("price-highest"), Some("prod-highest"),
                         Some("price-highest"), status, false, Some(from), Some(300), None, None, None, None, stamp)
  }

  const LAPSED_SUBSCRIPTION := ProviderSubscription(
    "sub-old", Some("cus"), Some("prod-entry"), Some("price-entry"), Some("prod-entry"), Some("price-entry"),
        "canceled", false,
    Some(0), Some(100), Some(100), None, None, None, Some(100))

  const LAPSED := Row(Some("sub-old"), Some("cus"), "entry-monthly", Some("prod-entry"), Some("price-entry"),
                      "paid_entry",
                      "canceled", false, Some(0), Some(100), Some(100), None, None, Some(100), NO_NEXT_PLAN, None, None)

  const HIGHEST_ORDER := Order("order", Some("cus"), Some("sub-new"), Some("prod-highest"), Some("price-highest"),
                               "subscription_cycle", 10, 0, "paid", true, "eur", Some((200, 300)), None, None,
                                   Some(200))

  lemma HighestOffer()
    ensures ResolveOffer(OFFERS, Some("prod-highest"), Some("price-highest")) == Ok(OFFERS[1])
  {
    assert OFFERS[1..] == [OFFERS[1]] && Matching(OFFERS[1..][1..], Some("prod-highest"), Some("price-highest")) == [];
    assert !Maps(OFFERS[0], Some("prod-highest"), Some("price-highest"));
  }

  /** The stored row is about a subscription that has ended, and nothing is paid on the new one yet: the first pass
      records a change of plan that the second erases. */
  lemma OtherRowNeedsTwoPasses(now: Time, graceMs: nat, uncertain: bool)
    requires now >= 200
    ensures var store := Store(Some("cus"), Some(LAPSED), map[], {});
            var subs := [LAPSED_SUBSCRIPTION, HighestSubscription("trialing", 50, Some(200))];
            var first := Reconcile(store, subs, [], uncertain, OFFERS, graceMs, now);
            var second := Reconcile(first.0, subs, [], uncertain, OFFERS, graceMs, now);
            && StoredRow(store.row) && first.1 == second.1 == Reconciled(true)
            && first.0.row.Some? && first.0.row.value.next == NextPlan(Some("highest_paid"), Some("month"), Some(50))
            && second.0 == first.0.(row := Some(first.0.row.value.(next := NO_NEXT_PLAN)))
  {
    hide Project, SelectSubscription, BundleProblem, BindingsAgree;
    var store := Store(Some("cus"), Some(LAPSED), map[], {});
    var sub := HighestSubscription("trialing", 50, Some(200));
    var subs := [LAPSED_SUBSCRIPTION, sub];
    assert SelectSubscription(subs, Some("sub-old"), now) == SelectSubscription(subs, Some("sub-new"), now)
           == Chosen(sub) by {
      TrialIsChosen(now);
    }
    assert Named(subs, "sub-old") != [] && Named(subs, "sub-new") != [] by {
      NamedIsUnique(subs, LAPSED_SUBSCRIPTION);
      NamedIsUnique(subs, sub);
    }
    TrialListingIsClear(store, sub);
    TrialProjection(now, graceMs);
    TrialListingIsClear(Project(store, sub, [], OFFERS, graceMs, now).value, sub);
  }

  lemma TrialListingIsClear(store: Store, sub: ProviderSubscription)
    requires sub == HighestSubscription("trialing", 50, Some(200)) && store.customer == Some("cus")
    ensures BundleProblem([LAPSED_SUBSCRIPTION, sub], [], sub, [], OFFERS).None? && BindingsAgree(store, sub, [])
  {
    hide ResolveOffer;
    HighestOffer();
    assert LAPSED_SUBSCRIPTION.id[4] != sub.id[4];
  }

  lemma TrialIsChosen(now: Time)
    requires now >= 200
    ensures var sub := HighestSubscription("trialing", 50, Some(200));
            forall id :: SelectSubscription([LAPSED_SUBSCRIPTION, sub], id, now) == Chosen(sub)
  {
    var sub := HighestSubscription("trialing", 50, Some(200));
    var subs := [LAPSED_SUBSCRIPTION, sub];
    assert subs[1..] == [sub] && [sub][1..] == [];
    assert !IsCurrent(LAPSED_SUBSCRIPTION, now) && IsCurrent(sub, now);
    assert Current([sub], now) == [sub] + Current([], now);
    assert Current(subs, now) == [sub];
  }

  lemma TrialProjection(now: Time, graceMs: nat)
    ensures var store := Store(Some("cus"), Some(LAPSED), map[], {});
            var sub := HighestSubscription("trialing", 50, Some(200));
            var first := Project(store, sub, [], OFFERS, graceMs, now);
            && StoredRow(store.row) && first.Ok? && first.value.customer == Some("cus") && first.value.row.Some?
            && first.value.row.value.subscriptionId == Some("sub-new")
            && first.value.row.value.next == NextPlan(Some("highest_paid"), Some("month"), Some(50))
            && Project(first.value, sub, [], OFFERS, graceMs, now)
               == Ok(first.value.(row := Some(first.value.row.value.(next := NO_NEXT_PLAN))))
  {
    hide ResolveOffer;
    HighestOffer();
    assert ProjectionOrders([]) == [];
  }

  /** Without a time of its own, a past_due subscription restarts its grace period at every pass. */
  lemma UnstampedGraceMoves(now: Time, later: Time, graceMs: nat, uncertain: bool)
    requires graceMs > 0 && now < later
    ensures var sub := HighestSubscription("past_due", 200, None);
            var empty := Store(None, None, map[], {});
            var first := Reconcile(empty, [sub], [HIGHEST_ORDER], uncertain, OFFERS, graceMs, now);
            var second := Reconcile(first.0, [sub], [HIGHEST_ORDER], uncertain, OFFERS, graceMs, later);
            && first.1 == second.1 == Reconciled(true) && first.0.row.Some? && second.0.row.Some?
            && first.0.row.value.graceUntil == Some(now + graceMs)
            && second.0.row.value.graceUntil == Some(later + graceMs)
  {
    hide Project;
    var sub := HighestSubscription("past_due", 200, None);
    var empty := Store(None, None, map[], {});
    PastDueProjection(empty, sub, graceMs, now);
    PastDuePass(empty, sub, uncertain, graceMs, now);
    var first := Project(empty, sub, [HIGHEST_ORDER], OFFERS, graceMs, now).value;
    PastDueProjection(first, sub, graceMs, later);
    PastDuePass(first, sub, uncertain, graceMs, later);
  }

  lemma PastDueIsChosen(sub: ProviderSubscription, id: Option<string>, now: Time)
    requires sub == HighestSubscription("past_due", 200, None)
    ensures SelectSubscription([sub], id, now) == Chosen(sub)
    ensures Named([sub], "sub-new") == [sub] && RelevantOrders([HIGHEST_ORDER], "sub-new") == [HIGHEST_ORDER]
  {
    assert [sub][1..] == [] && [HIGHEST_ORDER][1..] == [];
    assert IsCurrent(sub, now);
    assert Named([sub], "sub-new") == [sub] + Named([], "sub-new");
    assert Current([sub], now) == [sub] + Current([], now);
    assert RelevantOrders([HIGHEST_ORDER], "sub-new") == [HIGHEST_ORDER] + RelevantOrders([], "sub-new");
  }

  lemma PastDueIsClear(store: Store, sub: ProviderSubscription)
    requires sub == HighestSubscription("past_due", 200, None)
    requires if store.row.Some? then store.customer == Some("cus") else store.customer.None?
    ensures BundleProblem([sub], [HIGHEST_ORDER], sub, [HIGHEST_ORDER], OFFERS).None?
    ensures BindingsAgree(store, sub, [HIGHEST_ORDER])
  {
    hide ResolveOffer;
    HighestOffer();
    assert [HIGHEST_ORDER][1..] == [];
    assert OrderProblem(HIGHEST_ORDER, OFFERS).None?;
    assert FirstProblem([HIGHEST_ORDER], OFFERS) == FirstProblem([], OFFERS);
  }

  /** Nothing in this listing keeps a pass from projecting it. */
  lemma PastDuePass(store: Store, sub: ProviderSubscription, uncertain: bool, graceMs: nat, now: Time)
    requires sub == HighestSubscription("past_due", 200, None)
    requires if store.row.Some? then store.row.value.subscriptionId == Some("sub-new") && store.customer == Some("cus")
             else store.customer.None?
    requires Project(store, sub, [HIGHEST_ORDER], OFFERS, graceMs, now).Ok?
    ensures var projected := Project(store, sub, [HIGHEST_ORDER], OFFERS, graceMs, now).value;
            Reconcile(store, [sub], [HIGHEST_ORDER], uncertain, OFFERS, graceMs, now)
            == (projected, Reconciled(Fingerprint(store) != Fingerprint(projected)))
  {
    hide Project, SelectSubscription, Named, RelevantOrders, BundleProblem, BindingsAgree;
    PastDueIsChosen(sub, LocalId(store), now);
    PastDueIsClear(store, sub);
  }

  lemma PastDueProjection(store: Store, sub: ProviderSubscription, graceMs: nat, now: Time)
    requires sub == HighestSubscription("past_due", 200, None) && graceMs > 0
    requires store.row.Some? ==> store.row.value.subscriptionId == Some("sub-new")
    requires CoveredUntil(store.row) <= 300
    ensures var r := Project(store, sub, [HIGHEST_ORDER], OFFERS, graceMs, now);
            && r.Ok? && r.value.row.Some? && r.value.row.value.graceUntil == Some(now + graceMs)
            && r.value.row.value.subscriptionId == Some("sub-new") && r.value.row.value.paidThrough == Some(300)
            && r.value.customer == Some("cus")
  {
    hide ResolveOffer, UpsertOrder, PaidRow, Replaceable, RowAllowed;
    HighestOffer();
    PastDueOrder(store, sub);
    assert ProjectionOrders([HIGHEST_ORDER]) == [HIGHEST_ORDER] by {
      assert [HIGHEST_ORDER][1..] == [] && !FullRefund(HIGHEST_ORDER);
      assert Where([HIGHEST_ORDER], false) == [HIGHEST_ORDER] + Where([], false);
      assert Where([HIGHEST_ORDER], true) == [] + Where([], true);
    }
    assert ApplyOrders(store, [], sub, OFFERS, now) == Ok(store);
    var paid := UpsertOrder(store, 200, HIGHEST_ORDER, Some(sub), OFFERS).value;
    PastDueSnapshot(paid, sub, graceMs, now);
  }

  lemma PastDueOrder(store: Store, sub: ProviderSubscription)
    requires sub == HighestSubscription("past_due", 200, None)
    requires store.row.Some? ==> store.row.value.subscriptionId == Some("sub-new")
    requires CoveredUntil(store.row) <= 300
    ensures var r := UpsertOrder(store, 200, HIGHEST_ORDER, Some(sub), OFFERS);
            r.Ok? && r.value.row == Some(PaidRow(HIGHEST_ORDER, Some(sub), OFFERS[1], NO_NEXT_PLAN))
  {
    hide ResolveOffer, PaymentRow, NormalizeStatus;
    HighestOffer();
    assert CurrencyValid("eur");
    assert RowAllowed(PaidRow(HIGHEST_ORDER, Some(sub), OFFERS[1], NO_NEXT_PLAN));
  }

  lemma PastDueSnapshot(paid: Store, sub: ProviderSubscription, graceMs: nat, now: Time)
    requires sub == HighestSubscription("past_due", 200, None) && graceMs > 0
    requires paid.row == Some(PaidRow(HIGHEST_ORDER, Some(sub), OFFERS[1], NO_NEXT_PLAN))
    ensures var r := ApplySnapshot(paid, false, now, sub, OFFERS, graceMs);
            && r.Ok? && r.value.row.Some? && r.value.row.value.graceUntil == Some(now + graceMs)
            && r.value.row.value.subscriptionId == Some("sub-new") && r.value.row.value.paidThrough == Some(300)
            && r.value.customer == Some("cus")
  {
    hide ResolveOffer;
    HighestOffer();
    assert "highest_paid" in PLANS;
  }

  // The same pass over the stored tables, inside one transaction.

  method ReconcileLocked(tables: BillingTables, subs: seq<ProviderSubscription>, orders: seq<Order>,
                         uncertainCheckout: bool,
                         catalog: Catalog, graceMs: nat, now: Time)
    returns (outcome: Outcome)
    modifies tables
    ensures (tables.Facts(), outcome) == Reconcile(old(tables.Facts()), subs, orders, uncertainCheckout, catalog,
                                                   graceMs, now)
  {
    hide SelectSubscription, Named, BundleProblem, ReasonFor, RelevantOrders, BindingsAgree, UpsertOrder, ApplySnapshot,
         ProjectionOrders, EventTime;
    ghost var store := tables.Facts();
    var localId := if tables.row.Some? then tables.row.value.subscriptionId else None;
    var bound := localId.Some? && localId.value != "";
    if bound && Named(subs, localId.value) == [] {
      return Exception("PROVIDER_SUBSCRIPTION_MISSING");
    }
    var selected := SelectSubscription(subs, localId, now);
    if selected.Ambiguous? {
      return Exception("MULTIPLE_SUBSCRIPTIONS_UNEXPECTED");
    }
    if selected.Nothing? {
      if bound {
        return Exception("PROVIDER_SUBSCRIPTION_MISSING");
      }
      if uncertainCheckout || orders != [] || selected.historicalOnly {
        return Exception("PROVIDER_STATE_AMBIGUOUS");
      }
      return NothingToProject;
    }
    var sub := selected.sub;
    var relevant := RelevantOrders(orders, sub.id);
    var problem := BundleProblem(subs, orders, sub, relevant, catalog);
    if problem.Some? {
      return Exception(problem.value);
    }
    if !BindingsAgree(tables.Facts(), sub, relevant) {
      return Exception("BINDING_CONTRADICTION");
    }
    var customer, row, payments, revokes := tables.customer, tables.row, tables.payments, tables.revokes;
    var projection, i := ProjectionOrders(relevant), 0;
    var error: Option<Error> := None;
    while i < |projection| && error.None?
      invariant 0 <= i <= |projection|
      invariant ApplyOrders(store, projection[..i], sub, catalog, now)
             == (if error.Some? then Err(error.value) else Ok(tables.Facts()))
      decreases |projection| - i, if error.None? then 1 else 0
    {
      assert projection[..i + 1][..i] == projection[..i];
      error := tables.UpsertOrderProjection(EventTime(projection[i].stamp, now), projection[i], Some(sub), catalog);
      i := i + 1;
    }
    StopsAtTheFirstError(store, projection, i, sub, catalog, now);
    if error.None? {
      assert projection[..i] == projection;
      error := tables.ApplySubscriptionSnapshot(false, EventTime(sub.stamp, now), sub, catalog, graceMs);
    }
    if error.Some? {
      tables.customer, tables.row, tables.payments, tables.revokes := customer, row, payments, revokes;
      return Exception(ReasonFor(error.value));
    }
    return Reconciled((customer, row, payments) != (tables.customer, tables.row, tables.payments));
  }

  lemma {:induction false} StopsAtTheFirstError(store: Store, orders: seq<Order>, n: nat, sub: ProviderSubscription,
                                                catalog: Catalog, now: Time)
    requires n <= |orders|
    ensures var r := ApplyOrders(store, orders[..n], sub, catalog, now);
            r.Err? ==> ApplyOrders(store, orders, sub, catalog, now) == r
    decreases |orders| - n
  {
    if n < |orders| {
      hide UpsertOrder;
      assert orders[..n + 1][..n] == orders[..n];
      StopsAtTheFirstError(store, orders, n + 1, sub, catalog, now);
    } else {
      assert orders[..n] == orders;
    }
  }
}
