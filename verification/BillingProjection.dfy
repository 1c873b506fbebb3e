/** How one provider snapshot or order is folded into a user's stored billing facts. */
module BillingProjection {
  import opened Wrappers
  import AccessResolver

  /** Milliseconds since the epoch. */
  type Time = nat

  const FREE := AccessResolver.FREE

  /** An offer with its provider mapping; offers without one are not candidates and are not listed. */
  datatype Offer = Offer(id: string, planId: string, interval: string, productId: string, priceId: string,
                         currency: string)

  type Catalog = seq<Offer>

  datatype PendingUpdate = PendingUpdate(productId: string, appliesAt: Option<Time>)

  /** A subscription as the provider reports it; `stamp` is the time it was modified, updated or created, whichever of
      these it carries first. */
  datatype ProviderSubscription = ProviderSubscription(
    id: string, customerId: Option<string>, productId: Option<string>, priceId: Option<string>,
    productField: Option<string>, priceField: Option<string>, status: string, cancelAtPeriodEnd: bool,
    periodStart: Option<Time>, periodEnd: Option<Time>, endedAt: Option<Time>, endsAt: Option<Time>,
    pastDueAt: Option<Time>, pendingUpdate: Option<PendingUpdate>, stamp: Option<Time>)
  {
    function Ended(): Option<Time> {
      if endedAt.Some? then endedAt else endsAt
    }
  }

  /** An order as the provider reports it; `period` is the coverage of its matching item. */
  datatype Order = Order(
    id: string, customerId: Option<string>, subscriptionId: Option<string>,
    productId: Option<string>, priceId: Option<string>,
    billingReason: string, amount: nat, refunded: nat, status: string, paid: bool, currency: string,
    period: Option<(Time, Time)>, paymentId: Option<string>, invoice: Option<string>, stamp: Option<Time>)

  datatype PaymentStatus = Pending | Succeeded | PartiallyRefunded | Refunded | Void | Failed

  /** One row of billing_subscription_state, without its bookkeeping columns. */
  datatype Row = Row(
    subscriptionId: Option<string>, customerId: Option<string>, offerId: string, productId: Option<string>,
    priceId: Option<string>, planId: string, status: string, cancelAtPeriodEnd: bool,
    periodStart: Option<Time>, periodEnd: Option<Time>, paidThrough: Option<Time>, pastDueAt: Option<Time>,
    graceUntil: Option<Time>, endedAt: Option<Time>, next: NextPlan,
    invalidatedAt: Option<Time>, invalidationReason: Option<string>)

  datatype NextPlan = NextPlan(planId: Option<string>, interval: Option<string>, effectiveAt: Option<Time>)

  const NO_NEXT_PLAN := NextPlan(None, None, None)

  /** One row of billing_payments, keyed by the provider's order id. */
  datatype Payment = Payment(
    paymentId: Option<string>, invoice: Option<string>, subscriptionId: string, offerId: string,
    periodStart: Option<Time>, periodEnd: Option<Time>, amount: nat, currency: string, status: PaymentStatus,
    refunded: nat, invalidatedAt: Option<Time>, invalidationReason: Option<string>)

  /** What is stored about one user at one provider; `revokes` are the subscriptions with a queued revocation. */
  datatype Store = Store(customer: Option<string>, row: Option<Row>, payments: map<string, Payment>,
                         revokes: set<string>)

  datatype Error =
    | SubscriptionRequired | UnexpectedProration | OfferAmbiguous | MissingCoverage | InvalidProviderState
    | MultipleSubscriptions
    | ConstraintViolated  // a CHECK of the table refuses the row

  // What the tables accept.

  /** The plans of the catalog in force, the only ones a row may name. */
  const PLANS := [FREE, "paid_entry", "highest_paid"]

  predicate Before(a: Option<Time>, b: Option<Time>) {
    a.Some? && b.Some? ==> a.value < b.value
  }

  /** The CHECK constraints of billing_subscription_state. */
  predicate RowAllowed(row: Row) {
    && row.planId in PLANS && (row.next.planId.Some? ==> row.next.planId.value in PLANS)
    && (row.next.interval.Some? ==> row.next.interval.value in ["month", "year"])
    && Before(row.periodStart, row.periodEnd)
    && (row.paidThrough.Some? && row.periodStart.Some? ==> row.periodStart.value <= row.paidThrough.value)
    && (row.graceUntil.Some? ==> row.pastDueAt.Some? && row.pastDueAt.value < row.graceUntil.value)
    && (if row.next.planId.Some? then row.next.effectiveAt.Some? else row.next == NO_NEXT_PLAN)
    && (row.invalidatedAt.Some? <==> row.invalidationReason.Some?)
  }

  predicate StoredRow(row: Option<Row>) {
    row.Some? ==> RowAllowed(row.value)
  }

  function Write(row: Row): Result<Option<Row>, Error> {
    if RowAllowed(row) then Ok(Some(row)) else Err(ConstraintViolated)
  }

  // Provider facts.

  function NormalizeStatus(status: string): string {
    if status in ["inactive", "trialing", "active", "past_due", "canceled", "unpaid", "incomplete",
                  "incomplete_expired", "paused"]
    then status
    else if status == "revoked" then "canceled"
    else "inactive"
  }

  predicate Maps(offer: Offer, productId: Option<string>, priceId: Option<string>) {
    && (productId.Some? ==> offer.productId == productId.value)
    && (priceId.Some? ==> offer.priceId == priceId.value)
    && (productId.Some? || priceId.Some?)
  }

  function Matching(catalog: Catalog, productId: Option<string>, priceId: Option<string>): seq<Offer> {
    if catalog == [] then []
    else (if Maps(catalog[0], productId, priceId) then [catalog[0]] else [])
         + Matching(catalog[1..], productId, priceId)
  }

  function ResolveOffer(catalog: Catalog, productId: Option<string>, priceId: Option<string>): Result<Offer, Error> {
    var candidates := Matching(catalog, productId, priceId);
    if |candidates| == 1 then Ok(candidates[0]) else Err(OfferAmbiguous)
  }

  predicate FullRefund(order: Order) {
    order.refunded > 0 && (order.status == "refunded" || (order.amount > 0 && order.refunded >= order.amount))
  }

  function OrderStatus(order: Order): PaymentStatus {
    if FullRefund(order) then Refunded
    else if order.refunded > 0 then PartiallyRefunded
    else if order.paid || order.status == "paid" then Succeeded
    else if order.status in ["void", "canceled", "cancelled"] then Void
    else if order.status in ["failed", "uncollectible"] then Failed
    else Pending
  }

  predicate Pays(order: Order) {
    OrderStatus(order).Succeeded? || OrderStatus(order).PartiallyRefunded?
  }

  lemma PaysOrRefunds(order: Order)
    ensures !(Pays(order) && FullRefund(order))
  {
  }

  /** All of the money is back, or some of it is and the provider calls the order refunded. */
  ghost predicate GivenBack(order: Order) {
    (0 < order.amount <= order.refunded) || (order.status == "refunded" && order.refunded > 0)
  }

  /** The order was paid, and at most part of the money is back. */
  ghost predicate PaidFor(order: Order) {
    !GivenBack(order) && (order.refunded > 0 || order.paid || order.status == "paid")
  }

  /** Which orders pay and which are refunded, and what the payment row calls each. */
  lemma StatusExactly(order: Order)
    ensures (FullRefund(order) <==> GivenBack(order)) && (Pays(order) <==> PaidFor(order))
    ensures OrderStatus(order).Refunded? <==> GivenBack(order)
    ensures OrderStatus(order).PartiallyRefunded? <==> 0 < order.refunded && !GivenBack(order)
    ensures OrderStatus(order).Succeeded? <==> order.refunded == 0 && (order.paid || order.status == "paid")
    ensures OrderStatus(order).Void? <==>
              order.refunded == 0 && !order.paid && order.status in ["void", "canceled", "cancelled"]
    ensures OrderStatus(order).Failed? <==>
              order.refunded == 0 && !order.paid && order.status in ["failed", "uncollectible"]
  {
  }

  function PeriodStart(order: Order, sub: Option<ProviderSubscription>): Option<Time> {
    if order.period.Some? then Some(order.period.value.0) else if sub.Some? then sub.value.periodStart else None
  }

  function PeriodEnd(order: Order, sub: Option<ProviderSubscription>): Option<Time> {
    if order.period.Some? then Some(order.period.value.1) else if sub.Some? then sub.value.periodEnd else None
  }

  predicate PeriodValid(order: Order, sub: Option<ProviderSubscription>) {
    var from, to := PeriodStart(order, sub), PeriodEnd(order, sub);
    from.Some? && to.Some? ==> from.value < to.value
  }

  predicate CurrencyValid(currency: string) {
    |currency| == 3 && forall c <- currency :: 'a' <= c <= 'z'
  }

  // The guard against replacing a subscription that still grants paid access.

  predicate ActivePaidThrough(row: Row, at: Time) {
    && row.paidThrough.Some? && row.paidThrough.value > at
    && !(row.invalidatedAt.Some? && row.invalidatedAt.value <= at)
  }

  predicate Replacing(row: Option<Row>, subscriptionId: string) {
    row.Some? && row.value.subscriptionId.Some? && row.value.subscriptionId.value != subscriptionId
  }

  /** There is no row, or it is about this subscription, or it names none and covers nothing. */
  ghost predicate OwnRow(row: Option<Row>, id: string) {
    row.Some? ==> row.value.subscriptionId == Some(id)
                  || (row.value.subscriptionId.None? && row.value.paidThrough.None?)
  }

  predicate Replaceable(row: Option<Row>, subscriptionId: string, at: Time) {
    Replacing(row, subscriptionId) ==> !ActivePaidThrough(row.value, at)
  }

  function PendingPlan(catalog: Catalog, sub: ProviderSubscription, row: Option<Row>,
                       offer: Offer): Result<NextPlan, Error> {
    if sub.pendingUpdate.Some? then
      var pending := ResolveOffer(catalog, Some(sub.pendingUpdate.value.productId), None);
      if pending.Err? then Err(pending.error)
      else if sub.pendingUpdate.value.appliesAt.None? then Err(InvalidProviderState)
      else Ok(NextPlan(Some(pending.value.planId), Some(pending.value.interval), sub.pendingUpdate.value.appliesAt))
    else if row.Some? && row.value.planId != FREE && offer.planId != row.value.planId
         && row.value.paidThrough.Some? then
      Ok(NextPlan(Some(offer.planId), Some(offer.interval), sub.periodStart))
    else if NormalizeStatus(sub.status) == "past_due" && row.Some?
         && row.value.next.planId.Some? then Ok(row.value.next)
    else Ok(NO_NEXT_PLAN)
  }

  // subscription.* events

  function SnapshotPlan(row: Option<Row>, sub: ProviderSubscription, offer: Offer): string {
    if row.None? || Replacing(row, sub.id) || (row.value.paidThrough.None? && row.value.planId == FREE)
       then offer.planId
    else row.value.planId
  }

  function SnapshotPastDue(row: Option<Row>, sub: ProviderSubscription, at: Time): Option<Time> {
    var stored := if row.Some? then row.value.pastDueAt else None;
    if NormalizeStatus(sub.status) == "past_due" && stored.None? then
      if sub.pastDueAt.Some? then sub.pastDueAt else Some(at)
    else stored
  }

  function SnapshotGrace(row: Option<Row>, sub: ProviderSubscription, offer: Offer, at: Time,
                         graceMs: nat): Option<Time> {
    var stored := if row.Some? then row.value.graceUntil else None;
    var pastDue := SnapshotPastDue(row, sub, at);
    var paidTier := SnapshotPlan(row, sub, offer) != FREE && row.Some? && row.value.paidThrough.Some?;
    if NormalizeStatus(sub.status) == "past_due" && paidTier && stored.None? && pastDue.Some?
    then Some(pastDue.value + graceMs)
    else stored
  }

  function SnapshotRow(row: Option<Row>, revoked: bool, at: Time, sub: ProviderSubscription, offer: Offer,
                       next: NextPlan, graceMs: nat): Row {
    var planId := SnapshotPlan(row, sub, offer);
    var invalidatedAt := if row.Some? then row.value.invalidatedAt else None;
    var reason := if row.Some? then row.value.invalidationReason else None;
    Row(Some(sub.id), sub.customerId, offer.id,
        if offer.planId == planId then Some(offer.productId) else sub.productField, sub.priceField,
        planId, NormalizeStatus(sub.status), sub.cancelAtPeriodEnd, sub.periodStart, sub.periodEnd,
        if row.Some? then row.value.paidThrough else None,
        if revoked then None else SnapshotPastDue(row, sub, at),
        if revoked then None else SnapshotGrace(row, sub, offer, at, graceMs),
        sub.Ended(), next,
        if revoked && invalidatedAt.None? then Some(at) else invalidatedAt,
        if revoked && reason.None? then Some("PROVIDER_SUBSCRIPTION_REVOKED") else reason)
  }

  function WithCustomer(store: Store, customerId: Option<string>): Store {
    if customerId.Some? then store.(customer := customerId) else store
  }

  function ApplySnapshot(store: Store, revoked: bool, at: Time, sub: ProviderSubscription, catalog: Catalog,
                         graceMs: nat): Result<Store, Error> {
    var offer := ResolveOffer(catalog, sub.productId, sub.priceId);
    if offer.Err? then Err(offer.error)
    else if !Replaceable(store.row, sub.id, at) then Err(MultipleSubscriptions)
    else
      var next := PendingPlan(catalog, sub, store.row, offer.value);
      if next.Err? then Err(next.error)
      else
        var written := Write(SnapshotRow(store.row, revoked, at, sub, offer.value, next.value, graceMs));
        if written.Err? then Err(written.error) else Ok(WithCustomer(store, sub.customerId).(row := written.value))
  }

  // order.* events

  function PaymentRow(existing: Option<Payment>, at: Time, order: Order, sub: Option<ProviderSubscription>,
                      offer: Offer): Payment {
    Payment(order.paymentId, order.invoice, if order.subscriptionId.Some? then order.subscriptionId.value else "",
            offer.id,
            PeriodStart(order, sub), PeriodEnd(order, sub), order.amount, order.currency, OrderStatus(order),
                order.refunded,
            if !FullRefund(order) then None
            else if existing.Some? && existing.value.invalidatedAt.Some? then existing.value.invalidatedAt
            else Some(at),
            if FullRefund(order) then Some("FULL_REFUND") else None)
  }

  function Ms(time: Option<Time>): int {
    if time.Some? then time.value else -1
  }

  function CoveredUntil(row: Option<Row>): int {
    if row.Some? then Ms(row.value.paidThrough) else -1
  }

  predicate ShouldAdvance(row: Option<Row>, subscriptionId: string, end: Option<Time>) {
    Replacing(row, subscriptionId) || row.None? || Ms(end) >= CoveredUntil(row)
  }

  /** A scheduled change is kept only when it starts no earlier than this order's coverage ends. */
  function PaidNextPlan(order: Order, sub: Option<ProviderSubscription>, catalog: Catalog,
                        offer: Offer): Result<NextPlan, Error> {
    if sub.Some? && sub.value.pendingUpdate.Some? && sub.value.pendingUpdate.value.appliesAt.Some?
       && sub.value.pendingUpdate.value.appliesAt.value >= Ms(PeriodEnd(order, sub))
    then PendingPlan(catalog, sub.value, None, offer)
    else Ok(NO_NEXT_PLAN)
  }

  function PaidRow(order: Order, sub: Option<ProviderSubscription>, offer: Offer, next: NextPlan): Row {
    var from := if sub.Some? && sub.value.periodStart.Some? then sub.value.periodStart else PeriodStart(order, sub);
    var to := if sub.Some? && sub.value.periodEnd.Some? then sub.value.periodEnd else PeriodEnd(order, sub);
    Row(order.subscriptionId, order.customerId, offer.id, Some(offer.productId), Some(offer.priceId), offer.planId,
        if sub.Some? && sub.value.status != "" then NormalizeStatus(sub.value.status) else "active",
        sub.Some? && sub.value.cancelAtPeriodEnd, from, to, PeriodEnd(order, sub), None, None,
        if sub.Some? then sub.value.Ended() else None, next, None, None)
  }

  predicate InvalidatesCoverage(row: Option<Row>, order: Order, sub: Option<ProviderSubscription>) {
    && FullRefund(order) && row.Some? && row.value.subscriptionId == order.subscriptionId
    && Ms(PeriodEnd(order, sub)) >= CoveredUntil(row) && CoveredUntil(row) > -1
  }

  function InvalidatedRow(row: Row, at: Time): Row {
    row.(invalidatedAt := if row.invalidatedAt.Some? then row.invalidatedAt else Some(at),
         invalidationReason := if row.invalidationReason.Some? then row.invalidationReason
                               else Some("FULL_REFUND_CURRENT_PERIOD"),
         pastDueAt := None, graceUntil := None)
  }

  function CheckOrder(order: Order, sub: Option<ProviderSubscription>, catalog: Catalog): Result<Offer, Error> {
    if order.subscriptionId.None? then Err(SubscriptionRequired)
    else if order.billingReason == "subscription_update" then Err(UnexpectedProration)
    else
      var offer := ResolveOffer(catalog, order.productId, order.priceId);
      if offer.Err? then offer
      else if !PeriodValid(order, sub) then Err(InvalidProviderState)
      else if Pays(order) && PeriodEnd(order, sub).None? then Err(MissingCoverage)
      else if !CurrencyValid(order.currency) then Err(InvalidProviderState)
      else offer
  }

  /** Payments never refund more than was paid. */
  predicate Storable(order: Order, sub: Option<ProviderSubscription>, catalog: Catalog) {
    CheckOrder(order, sub, catalog).Ok? && order.refunded <= order.amount
  }

  /** The subscription row after one order that passed its checks; the errors are a payment or a row the tables
      refuse, and a scheduled change that maps to no offer. */
  function OrderRow(row: Option<Row>, at: Time, order: Order, sub: Option<ProviderSubscription>, catalog: Catalog,
                    offer: Offer): Result<Option<Row>, Error>
    requires order.subscriptionId.Some?
  {
    if order.refunded > order.amount then Err(ConstraintViolated)
    else if Pays(order) && ShouldAdvance(row, order.subscriptionId.value, PeriodEnd(order, sub)) then
      var next := PaidNextPlan(order, sub, catalog, offer);
      if next.Err? then Err(next.error) else Write(PaidRow(order, sub, offer, next.value))
    else if InvalidatesCoverage(row, order, sub) then Write(InvalidatedRow(row.value, at))
    else Ok(row)
  }

  lemma InvalidatedStaysAllowed(row: Row, at: Time)
    ensures RowAllowed(row) ==> RowAllowed(InvalidatedRow(row, at))
  {
  }

  function UpsertOrder(store: Store, at: Time, order: Order, sub: Option<ProviderSubscription>,
                       catalog: Catalog): Result<Store, Error> {
    var offer := CheckOrder(order, sub, catalog);
    if offer.Err? then Err(offer.error)
    else if !Replaceable(store.row, order.subscriptionId.value, at) then Err(MultipleSubscriptions)
    else
      var existing := if order.id in store.payments then Some(store.payments[order.id]) else None;
      var row := OrderRow(store.row, at, order, sub, catalog, offer.value);
      if row.Err? then Err(row.error)
      else Ok(WithCustomer(store, order.customerId).(
        payments := store.payments[order.id := PaymentRow(existing, at, order, sub, offer.value)],
        row := row.value,
        revokes := if InvalidatesCoverage(store.row, order, sub) then store.revokes + {order.subscriptionId.value}
                   else store.revokes))
  }

  /** The tables of one user, updated in a transaction that either commits or leaves them as they were. */
  class BillingTables {
    var customer: Option<string>
    var row: Option<Row>
    var payments: map<string, Payment>
    var revokes: set<string>

    constructor ()
      ensures Facts() == Store(None, None, map[], {})
    {
      customer, row, payments, revokes := None, None, map[], {};
    }

    function Facts(): Store
      reads this
    {
      Store(customer, row, payments, revokes)
    }

    /** Plan, past_due and grace of the next row. */
    static method PlanAndGrace(current: Option<Row>, sub: ProviderSubscription, offer: Offer, eventAt: Time,
                               graceMs: nat)
      returns (planId: string, pastDueAt: Option<Time>, graceUntil: Option<Time>)
      ensures planId == SnapshotPlan(current, sub, offer) && pastDueAt == SnapshotPastDue(current, sub, eventAt)
      ensures graceUntil == SnapshotGrace(current, sub, offer, eventAt, graceMs)
    {
      hide NormalizeStatus, Replacing;
      planId := if current.Some? then current.value.planId else offer.planId;
      if current.None? || Replacing(current, sub.id)
         || (current.value.paidThrough.None? && current.value.planId == FREE) {
        planId := offer.planId;
      }
      pastDueAt := if current.Some? then current.value.pastDueAt else None;
      graceUntil := if current.Some? then current.value.graceUntil else None;
      if NormalizeStatus(sub.status) == "past_due" {
        if pastDueAt.None? {
          pastDueAt := if sub.pastDueAt.Some? then sub.pastDueAt else Some(eventAt);
        }
        var hasPreviouslyPaidTier := planId != FREE && current.Some? && current.value.paidThrough.Some?;
        if hasPreviouslyPaidTier && graceUntil.None? {
          graceUntil := Some(pastDueAt.value + graceMs);
        }
      }
    }

    method ApplySubscriptionSnapshot(revoked: bool, eventAt: Time, sub: ProviderSubscription, catalog: Catalog,
                                     graceMs: nat)
      returns (error: Option<Error>)
      modifies this
      ensures var r := ApplySnapshot(old(Facts()), revoked, eventAt, sub, catalog, graceMs);
              && Facts() == (if r.Ok? then r.value else old(Facts()))
              && error == (if r.Err? then Some(r.error) else None)
    {
      hide ResolveOffer, PendingPlan, NormalizeStatus, Replaceable, SnapshotPlan, SnapshotPastDue, SnapshotGrace,
           RowAllowed;
      var currentOffer := ResolveOffer(catalog, sub.productId, sub.priceId);
      if currentOffer.Err? {
        return Some(currentOffer.error);
      }
      var offer, current := currentOffer.value, row;
      if !Replaceable(current, sub.id, eventAt) {
        return Some(MultipleSubscriptions);
      }
      var status := NormalizeStatus(sub.status);
      var planId, pastDueAt, graceUntil := PlanAndGrace(current, sub, offer, eventAt, graceMs);
      var pending := PendingPlan(catalog, sub, current, offer);
      if pending.Err? {
        return Some(pending.error);
      }
      var invalidatedAt := if current.Some? then current.value.invalidatedAt else None;
      var invalidationReason := if current.Some? then current.value.invalidationReason else None;
      if revoked {
        invalidatedAt := if invalidatedAt.Some? then invalidatedAt else Some(eventAt);
        invalidationReason := if invalidationReason.Some? then invalidationReason
                              else Some("PROVIDER_SUBSCRIPTION_REVOKED");
        pastDueAt, graceUntil := None, None;
      }
      var updated := Row(
        Some(sub.id), sub.customerId, offer.id, if offer.planId == planId then Some(offer.productId)
                                                else sub.productField,
        sub.priceField, planId, status, sub.cancelAtPeriodEnd, sub.periodStart, sub.periodEnd,
        if current.Some? then current.value.paidThrough else None, pastDueAt, graceUntil, sub.Ended(), pending.value,
        invalidatedAt, invalidationReason);
      if !RowAllowed(updated) {
        return Some(ConstraintViolated);
      }
      if sub.customerId.Some? {
        customer := sub.customerId;
      }
      row := Some(updated);
      return None;
    }

    method UpsertOrderProjection(eventAt: Time, order: Order, sub: Option<ProviderSubscription>, catalog: Catalog)
      returns (error: Option<Error>)
      modifies this
      ensures var r := UpsertOrder(old(Facts()), eventAt, order, sub, catalog);
              && Facts() == (if r.Ok? then r.value else old(Facts()))
              && error == (if r.Err? then Some(r.error) else None)
    {
      hide PaidNextPlan, PaidRow, PaymentRow, InvalidatedRow, Replaceable, Replacing, PeriodEnd, Pays, RowAllowed;
      PaysOrRefunds(order);
      var checked := CheckOrder(order, sub, catalog);
      if checked.Err? {
        return Some(checked.error);
      }
      var offer, current := checked.value, row;
      var subscriptionId, periodEnd := order.subscriptionId.value, PeriodEnd(order, sub);
      if !Replaceable(current, subscriptionId, eventAt) {
        return Some(MultipleSubscriptions);
      }
      var existing := if order.id in payments then Some(payments[order.id]) else None;
      var saved := current;
      if order.refunded > order.amount {
        return Some(ConstraintViolated);
      }
      if Pays(order) {
        if ShouldAdvance(current, subscriptionId, periodEnd) {
          var pending := PaidNextPlan(order, sub, catalog, offer);
          if pending.Err? {
            return Some(pending.error);
          }
          saved := Some(PaidRow(order, sub, offer, pending.value));
          if !RowAllowed(saved.value) {
            return Some(ConstraintViolated);
          }
        }
      }
      if FullRefund(order) && current.Some? && current.value.subscriptionId == order.subscriptionId {
        var currentCoverageInvalidated := Ms(periodEnd) >= CoveredUntil(current) && CoveredUntil(current) > -1;
        if currentCoverageInvalidated {
          saved := Some(InvalidatedRow(current.value, eventAt));
          if !RowAllowed(saved.value) {
            return Some(ConstraintViolated);
          }
          revokes := revokes + {subscriptionId};
        }
      }
      if order.customerId.Some? {
        customer := order.customerId;
      }
      payments := payments[order.id := PaymentRow(existing, eventAt, order, sub, offer)];
      row := saved;
      return None;
    }
  }
}
