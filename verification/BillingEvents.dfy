/** What one event makes of a user's billing facts, in the fields of the provider's objects. */
module BillingEvents {
  import opened Wrappers
  import opened BillingProjection

  // What the provider's fields mean.

  /** The offer is the one named: by product, by price, or by both. */
  ghost predicate Sells(offer: Offer, product: Option<string>, price: Option<string>) {
    && (product.Some? || price.Some?)
    && product in {None, Some(offer.productId)} && price in {None, Some(offer.priceId)}
  }

  /** The catalog sells this under exactly one of its entries. */
  ghost predicate OnlyOffer(catalog: Catalog, product: Option<string>, price: Option<string>, offer: Offer) {
    exists i | 0 <= i < |catalog| ::
      && catalog[i] == offer && Sells(offer, product, price)
      && forall j | 0 <= j < |catalog| && j != i :: !Sells(catalog[j], product, price)
  }

  lemma SellsExactly(offer: Offer, product: Option<string>, price: Option<string>)
    ensures Maps(offer, product, price) <==> Sells(offer, product, price)
  {
    assert product in {None, Some(offer.productId)} <==> product.None? || product.value == offer.productId;
    assert price in {None, Some(offer.priceId)} <==> price.None? || price.value == offer.priceId;
  }

  lemma OneMore<T>(first: T, more: seq<T>, x: T)
    ensures [first] + more == [x] <==> first == x && more == []
  {
    if [first] + more == [x] {
      assert ([first] + more)[0] == first && |[first] + more| == 1 + |more|;
    }
  }

  lemma {:induction false} MatchingIsSold(catalog: Catalog, product: Option<string>, price: Option<string>,
                                          offer: Offer)
    ensures Matching(catalog, product, price) == [] <==> forall o <- catalog :: !Sells(o, product, price)
    ensures Matching(catalog, product, price) == [offer] <==> OnlyOffer(catalog, product, price, offer)
  {
    if catalog != [] {
      hide Maps, Sells, OnlyOffer;
      var first, rest := catalog[0], catalog[1..];
      var more := Matching(rest, product, price);
      SellsExactly(first, product, price);
      MatchingIsSold(rest, product, price, offer);
      OnlyInRest(catalog, product, price, offer);
      assert forall o :: o in catalog <==> o == first || o in rest;
      if Sells(first, product, price) {
        assert Matching(catalog, product, price) == [first] + more;
        OneMore(first, more, offer);
      } else {
        assert Matching(catalog, product, price) == [] + more == more;
      }
    }
  }

  lemma OnlyInRest(catalog: Catalog, product: Option<string>, price: Option<string>, offer: Offer)
    requires catalog != []
    ensures OnlyOffer(catalog, product, price, offer)
            <==> if Sells(catalog[0], product, price)
                 then offer == catalog[0] && forall o <- catalog[1..] :: !Sells(o, product, price)
                 else OnlyOffer(catalog[1..], product, price, offer)
  {
    hide Sells;
    var rest := catalog[1..];
    assert forall j | 0 <= j < |rest| :: rest[j] == catalog[j + 1];
    if OnlyOffer(catalog, product, price, offer) {
      var i :| 0 <= i < |catalog| && catalog[i] == offer && Sells(offer, product, price)
               && forall j | 0 <= j < |catalog| && j != i :: !Sells(catalog[j], product, price);
      if i > 0 {
        assert rest[i - 1] == offer;
      }
    }
    if !Sells(catalog[0], product, price) && OnlyOffer(rest, product, price, offer) {
      var i :| 0 <= i < |rest| && rest[i] == offer && Sells(offer, product, price)
               && forall j | 0 <= j < |rest| && j != i :: !Sells(rest[j], product, price);
      assert catalog[i + 1] == offer;
      forall j | 0 <= j < |catalog| && j != i + 1 ensures !Sells(catalog[j], product, price) {
        assert j > 0 ==> rest[j - 1] == catalog[j];
      }
    }
  }

  /** Product and price of an order or a subscription stand for the one offer that has both; none or several are an
      error. */
  lemma OfferExactly(catalog: Catalog, product: Option<string>, price: Option<string>, offer: Offer)
    ensures ResolveOffer(catalog, product, price) == Ok(offer) <==> OnlyOffer(catalog, product, price, offer)
    ensures ResolveOffer(catalog, product, price).Err? ==> ResolveOffer(catalog, product, price) == Err(OfferAmbiguous)
  {
    hide OnlyOffer, Matching;
    MatchingIsSold(catalog, product, price, offer);
    var candidates := Matching(catalog, product, price);
    assert |candidates| == 1 ==> candidates == [candidates[0]];
  }

  /** A provider status is kept if the table knows it; a revoked subscription is canceled, any other is inactive. */
  lemma StatusExactly(status: string)
    ensures var known := ["inactive", "trialing", "active", "past_due", "canceled", "unpaid", "incomplete",
                          "incomplete_expired", "paused"];
            && (status in known ==> NormalizeStatus(status) == status)
            && (status == "revoked" ==> NormalizeStatus(status) == "canceled")
            && (status !in known && status != "revoked" ==> NormalizeStatus(status) == "inactive")
  {
  }

  /** What the table of subscriptions accepts. */
  ghost predicate Accepted(row: Row) {
    && row.planId in ["free", "paid_entry", "highest_paid"]
    && (row.next.planId.None? ==> row.next.interval.None? && row.next.effectiveAt.None?)
    && (row.next.planId.Some? ==> row.next.planId.value in ["free", "paid_entry", "highest_paid"]
                                  && row.next.effectiveAt.Some?)
    && row.next.interval in [None, Some("month"), Some("year")]
    && (row.periodStart.Some? && row.periodEnd.Some? ==> row.periodStart.value < row.periodEnd.value)
    && (row.periodStart.Some? && row.paidThrough.Some? ==> row.periodStart.value <= row.paidThrough.value)
    && (row.graceUntil.Some? ==> row.pastDueAt.Some? && row.pastDueAt.value < row.graceUntil.value)
    && row.invalidatedAt.Some? == row.invalidationReason.Some?
  }

  lemma AcceptedExactly(row: Row)
    ensures RowAllowed(row) <==> Accepted(row)
  {
    assert row.next.interval in [None, Some("month"), Some("year")]
           <==> row.next.interval.None? || row.next.interval.value in ["month", "year"];
  }

  /** The row is about another subscription whose paid coverage has neither ended nor been invalidated by then. */
  ghost predicate Guarded(row: Option<Row>, subscription: string, at: Time) {
    && row.Some? && row.value.subscriptionId !in [None, Some(subscription)]
    && row.value.paidThrough.Some? && at < row.value.paidThrough.value
    && (row.value.invalidatedAt.Some? ==> at < row.value.invalidatedAt.value)
  }

  lemma GuardedExactly(row: Option<Row>, subscription: string, at: Time)
    ensures Replaceable(row, subscription, at) <==> !Guarded(row, subscription, at)
    ensures Replacing(row, subscription) <==> row.Some? && row.value.subscriptionId !in [None, Some(subscription)]
  {
    if row.Some? {
      assert row.value.subscriptionId in [None, Some(subscription)]
             <==> row.value.subscriptionId.None? || row.value.subscriptionId.value == subscription;
    }
  }

  // Subscription events.

  /** The change of plan a subscription has ahead: one the provider has scheduled, else one that an offer differing from
      the paid plan announces, else, while payment is due, the one stored before. */
  lemma ScheduleExactly(catalog: Catalog, sub: ProviderSubscription, row: Option<Row>, offer: Offer, target: Offer)
    ensures var r := PendingPlan(catalog, sub, row, offer);
            match sub.pendingUpdate
            case Some(update) =>
              && (OnlyOffer(catalog, Some(update.productId), None, target) && update.appliesAt.Some? ==>
                    r == Ok(NextPlan(Some(target.planId), Some(target.interval), update.appliesAt)))
              && (OnlyOffer(catalog, Some(update.productId), None, target) && update.appliesAt.None? ==>
                    r == Err(InvalidProviderState))
              && (r.Ok? ==> r.value.planId.Some? && r.value.effectiveAt.Some?)
            case None =>
              && r.Ok?
              && r.value == if row.Some? && row.value.planId != "free" && row.value.paidThrough.Some?
                               && row.value.planId != offer.planId
                            then NextPlan(Some(offer.planId), Some(offer.interval), sub.periodStart)
                            else if NormalizeStatus(sub.status) == "past_due" && row.Some?
                                    && row.value.next.planId.Some? then row.value.next
                            else NextPlan(None, None, None)
  {
    hide ResolveOffer, NormalizeStatus, OnlyOffer;
    if sub.pendingUpdate.Some? {
      OfferExactly(catalog, Some(sub.pendingUpdate.value.productId), None, target);
    }
  }

  /** A snapshot of a subscription that maps to one offer is refused while the row is guarded, when its scheduled change
      is, or when the table does not accept the row; otherwise it takes the provider's facts over, leaves what is paid
      where it is, and moves plan, past_due, grace and invalidation as stated. */
  lemma SnapshotExactly(store: Store, revoked: bool, at: Time, sub: ProviderSubscription, catalog: Catalog,
                        graceMs: nat, offer: Offer)
    requires OnlyOffer(catalog, sub.productId, sub.priceId, offer)
    ensures var r := ApplySnapshot(store, revoked, at, sub, catalog, graceMs);
            var next := PendingPlan(catalog, sub, store.row, offer);
            && (r == Err(MultipleSubscriptions) <==> Guarded(store.row, sub.id, at))
            && (!Guarded(store.row, sub.id, at) && next.Err? ==> r == Err(next.error))
            && (!Guarded(store.row, sub.id, at) && next.Ok? && r.Err? ==> r == Err(ConstraintViolated))
            && (r.Ok? ==>
                  && r.value.row.Some? && Accepted(r.value.row.value) && next == Ok(r.value.row.value.next)
                  && r.value.payments == store.payments && r.value.revokes == store.revokes
                  && r.value.customer == (if sub.customerId.Some? then sub.customerId else store.customer)
                  && TakesOver(store.row, r.value.row.value, sub, offer)
                  && MovesTimes(store.row, r.value.row.value, revoked, at, sub, graceMs))
  {
    hide ResolveOffer, PendingPlan, NormalizeStatus, RowAllowed, OnlyOffer, Accepted, Guarded, Replaceable;
    OfferExactly(catalog, sub.productId, sub.priceId, offer);
    GuardedExactly(store.row, sub.id, at);
    PendingErrors(catalog, sub, store.row, offer);
    var r := ApplySnapshot(store, revoked, at, sub, catalog, graceMs);
    if r.Ok? {
      AcceptedExactly(r.value.row.value);
    }
  }

  lemma PendingErrors(catalog: Catalog, sub: ProviderSubscription, row: Option<Row>, offer: Offer)
    ensures PendingPlan(catalog, sub, row, offer) != Err(MultipleSubscriptions)
  {
    hide Matching, NormalizeStatus;
  }

  /** Nothing is refused for the table's sake that the table would accept. */
  lemma SnapshotIsStored(store: Store, revoked: bool, at: Time, sub: ProviderSubscription, catalog: Catalog,
                         graceMs: nat, offer: Offer, row: Row)
    requires OnlyOffer(catalog, sub.productId, sub.priceId, offer) && !Guarded(store.row, sub.id, at)
    requires PendingPlan(catalog, sub, store.row, offer) == Ok(row.next) && Accepted(row)
    requires TakesOver(store.row, row, sub, offer) && MovesTimes(store.row, row, revoked, at, sub, graceMs)
    ensures ApplySnapshot(store, revoked, at, sub, catalog, graceMs).Ok?
    ensures ApplySnapshot(store, revoked, at, sub, catalog, graceMs).value.row == Some(row)
  {
    hide ResolveOffer, PendingPlan, NormalizeStatus, RowAllowed, OnlyOffer, Accepted, Guarded, Replaceable;
    OfferExactly(catalog, sub.productId, sub.priceId, offer);
    GuardedExactly(store.row, sub.id, at);
    AcceptedExactly(row);
  }

  /** The provider's facts, beside what is paid; the plan stays the paid one, and is the offer's only for a row that is
      new, about another subscription, or Free and never paid. */
  ghost predicate TakesOver(before: Option<Row>, row: Row, sub: ProviderSubscription, offer: Offer) {
    && row.subscriptionId == Some(sub.id) && row.customerId == sub.customerId && row.offerId == offer.id
    && row.priceId == sub.priceField && row.status == NormalizeStatus(sub.status)
    && row.cancelAtPeriodEnd == sub.cancelAtPeriodEnd
    && row.periodStart == sub.periodStart && row.periodEnd == sub.periodEnd
    && row.endedAt == (if sub.endedAt.Some? then sub.endedAt else sub.endsAt)
    && row.paidThrough == (if before.Some? then before.value.paidThrough else None)
    && row.planId == (if before.Some? && before.value.subscriptionId in [None, Some(sub.id)]
                         && !(before.value.planId == "free" && before.value.paidThrough.None?)
                      then before.value.planId else offer.planId)
    && row.productId == (if row.planId == offer.planId then Some(offer.productId) else sub.productField)
  }

  /** past_due starts with the provider's time, or else the event's, and grace follows it on a paid plan; both stay once
      they have started. A revocation ends them and invalidates, unless something did so before. */
  ghost predicate MovesTimes(before: Option<Row>, row: Row, revoked: bool, at: Time, sub: ProviderSubscription,
                             graceMs: nat) {
    var due := NormalizeStatus(sub.status) == "past_due";
    var pastDue := if before.Some? && before.value.pastDueAt.Some? then before.value.pastDueAt
                   else if due then Some(if sub.pastDueAt.Some? then sub.pastDueAt.value else at) else None;
    var grace := if before.Some? && before.value.graceUntil.Some? then before.value.graceUntil
                 else if due && row.paidThrough.Some? && row.planId != "free" then Some(pastDue.value + graceMs)
                 else None;
    && row.pastDueAt == (if revoked then None else pastDue) && row.graceUntil == (if revoked then None else grace)
    && row.invalidatedAt == (if before.Some? && before.value.invalidatedAt.Some? then before.value.invalidatedAt
                             else if revoked then Some(at) else None)
    && row.invalidationReason == (if before.Some? && before.value.invalidationReason.Some?
                                  then before.value.invalidationReason
                                  else if revoked then Some("PROVIDER_SUBSCRIPTION_REVOKED") else None)
  }

  // Order events.

  /** The period an order pays for: its own, or else that of the subscription beside it. */
  lemma PeriodExactly(order: Order, sub: Option<ProviderSubscription>)
    ensures order.period.Some? ==> && PeriodStart(order, sub) == Some(order.period.value.0)
                                   && PeriodEnd(order, sub) == Some(order.period.value.1)
    ensures order.period.None? && sub.Some? ==>
              PeriodStart(order, sub) == sub.value.periodStart && PeriodEnd(order, sub) == sub.value.periodEnd
    ensures order.period.None? && sub.None? ==> PeriodStart(order, sub).None? && PeriodEnd(order, sub).None?
  {
  }

  /** An order that can be stored: it belongs to a subscription, is no proration, maps to one offer, its period runs
      forward and is known if the order pays, its currency is a three-letter code, and no more is refunded than paid. */
  ghost predicate Sound(order: Order, sub: Option<ProviderSubscription>, catalog: Catalog, offer: Offer) {
    var from, to := PeriodStart(order, sub), PeriodEnd(order, sub);
    && order.subscriptionId.Some? && order.billingReason != "subscription_update"
    && OnlyOffer(catalog, order.productId, order.priceId, offer)
    && (from.Some? && to.Some? ==> from.value < to.value) && (PaidFor(order) ==> to.Some?)
    && |order.currency| == 3 && (forall c <- order.currency :: 'a' <= c <= 'z')
    && order.refunded <= order.amount
  }

  lemma SoundExactly(order: Order, sub: Option<ProviderSubscription>, catalog: Catalog, offer: Offer)
    ensures Storable(order, sub, catalog) && CheckOrder(order, sub, catalog) == Ok(offer)
            <==> Sound(order, sub, catalog, offer)
  {
    hide ResolveOffer, OnlyOffer, PeriodStart, PeriodEnd, PaidFor, Pays;
    OfferExactly(catalog, order.productId, order.priceId, offer);
    BillingProjection.StatusExactly(order);
  }

  /** The payment an order leaves: the provider's facts, and the moment its money was first seen to be back. */
  ghost predicate Records(before: Option<Payment>, payment: Payment, at: Time, order: Order,
                          sub: Option<ProviderSubscription>, offer: Offer) {
    && payment.paymentId == order.paymentId && payment.invoice == order.invoice && payment.offerId == offer.id
    && Some(payment.subscriptionId) == order.subscriptionId && payment.amount == order.amount
    && payment.refunded == order.refunded && payment.currency == order.currency
    && payment.status == OrderStatus(order)
    && payment.periodStart == PeriodStart(order, sub) && payment.periodEnd == PeriodEnd(order, sub)
    && (if GivenBack(order)
        then payment.invalidationReason == Some("FULL_REFUND")
             && payment.invalidatedAt == (if before.Some? && before.value.invalidatedAt.Some?
                                          then before.value.invalidatedAt else Some(at))
        else payment.invalidatedAt.None? && payment.invalidationReason.None?)
  }

  lemma PaymentRecords(before: Option<Payment>, at: Time, order: Order, sub: Option<ProviderSubscription>, offer: Offer)
    requires order.subscriptionId.Some?
    ensures Records(before, PaymentRow(before, at, order, sub, offer), at, order, sub, offer)
  {
    hide OrderStatus, PeriodStart, PeriodEnd, GivenBack, FullRefund;
    BillingProjection.StatusExactly(order);
  }

  lemma PaidRowCovers(order: Order, sub: Option<ProviderSubscription>, offer: Offer, next: NextPlan)
    ensures Covers(PaidRow(order, sub, offer, next), order, sub, offer) && PaidRow(order, sub, offer, next).next == next
  {
    hide NormalizeStatus, PeriodStart, PeriodEnd;
  }

  lemma ReachingAdvances(row: Option<Row>, order: Order, sub: Option<ProviderSubscription>)
    requires order.subscriptionId.Some? && PeriodEnd(order, sub).Some?
    ensures ShouldAdvance(row, order.subscriptionId.value, PeriodEnd(order, sub)) <==> Reaches(row, order, sub)
  {
    hide PeriodEnd, Replacing;
    GuardedExactly(row, order.subscriptionId.value, 0);
  }

  /** The row a paid order leaves: its coverage and plan, no past_due, grace or invalidation, and the subscription's own
      facts where it comes with one. */
  ghost predicate Covers(row: Row, order: Order, sub: Option<ProviderSubscription>, offer: Offer) {
    && row.subscriptionId == order.subscriptionId && row.customerId == order.customerId && row.offerId == offer.id
    && row.productId == Some(offer.productId) && row.priceId == Some(offer.priceId) && row.planId == offer.planId
    && row.paidThrough == PeriodEnd(order, sub) && row.pastDueAt.None? && row.graceUntil.None?
    && row.invalidatedAt.None? && row.invalidationReason.None?
    && row.periodStart == (if sub.Some? && sub.value.periodStart.Some? then sub.value.periodStart
                           else PeriodStart(order, sub))
    && row.periodEnd == (if sub.Some? && sub.value.periodEnd.Some? then sub.value.periodEnd
                         else PeriodEnd(order, sub))
    && row.status == (if sub.Some? && sub.value.status != "" then NormalizeStatus(sub.value.status) else "active")
    && row.cancelAtPeriodEnd == (sub.Some? && sub.value.cancelAtPeriodEnd)
    && row.endedAt == (if sub.None? then None
                       else if sub.value.endedAt.Some? then sub.value.endedAt else sub.value.endsAt)
  }

  /** The order's coverage takes the row over: it is new, about another subscription, or covers no longer. */
  ghost predicate Reaches(row: Option<Row>, order: Order, sub: Option<ProviderSubscription>)
    requires order.subscriptionId.Some?
  {
    || row.None? || row.value.subscriptionId !in [None, order.subscriptionId]
    || row.value.paidThrough.None?
    || (PeriodEnd(order, sub).Some? && row.value.paidThrough.value <= PeriodEnd(order, sub).value)
  }

  /** A sound order that meets no guarded row is recorded; a paid one whose coverage reaches as far takes the row over,
      unless its scheduled change maps to no offer or the table refuses the row. */
  lemma PaidOrderExactly(store: Store, at: Time, order: Order, sub: Option<ProviderSubscription>, catalog: Catalog,
                         offer: Offer)
    requires Sound(order, sub, catalog, offer) && PaidFor(order)
    ensures var r := UpsertOrder(store, at, order, sub, catalog);
            var before := if order.id in store.payments then Some(store.payments[order.id]) else None;
            && (r == Err(MultipleSubscriptions) <==> Guarded(store.row, order.subscriptionId.value, at))
            && (r.Ok? ==>
                  && r.value.payments.Keys == store.payments.Keys + {order.id} && r.value.revokes == store.revokes
                  && (forall id <- store.payments :: id != order.id ==> r.value.payments[id] == store.payments[id])
                  && Records(before, r.value.payments[order.id], at, order, sub, offer)
                  && r.value.customer == (if order.customerId.Some? then order.customerId else store.customer)
                  && if Reaches(store.row, order, sub)
                     then r.value.row.Some? && Covers(r.value.row.value, order, sub, offer)
                          && Accepted(r.value.row.value)
                          && PaidNextPlan(order, sub, catalog, offer) == Ok(r.value.row.value.next)
                     else r.value.row == store.row)
            && (r.Err? && !Guarded(store.row, order.subscriptionId.value, at) ==>
                  && Reaches(store.row, order, sub)
                  && (PaidNextPlan(order, sub, catalog, offer).Ok? ==> r == Err(ConstraintViolated)))
  {
    hide ResolveOffer, PaidNextPlan, RowAllowed, OnlyOffer, Accepted, Guarded, Replaceable, NormalizeStatus, Replacing,
         GivenBack, FullRefund, OrderStatus, CheckOrder, PeriodStart, PeriodEnd, PaymentRow, PaidRow, Records, Covers,
         Reaches, ShouldAdvance;
    var before := if order.id in store.payments then Some(store.payments[order.id]) else None;
    SoundExactly(order, sub, catalog, offer);
    GuardedExactly(store.row, order.subscriptionId.value, at);
    BillingProjection.StatusExactly(order);
    PaidPlanErrors(order, sub, catalog, offer);
    PaymentRecords(before, at, order, sub, offer);
    ReachingAdvances(store.row, order, sub);
    if PaidNextPlan(order, sub, catalog, offer).Ok? {
      PaidRowCovers(order, sub, offer, PaidNextPlan(order, sub, catalog, offer).value);
    }
    var r := UpsertOrder(store, at, order, sub, catalog);
    if r.Ok? && r.value.row.Some? {
      AcceptedExactly(r.value.row.value);
    }
  }

  /** And nothing is refused that the table would accept. */
  lemma PaidOrderIsStored(store: Store, at: Time, order: Order, sub: Option<ProviderSubscription>, catalog: Catalog,
                          offer: Offer, row: Row)
    requires Sound(order, sub, catalog, offer) && PaidFor(order)
    requires !Guarded(store.row, order.subscriptionId.value, at) && Reaches(store.row, order, sub)
    requires PaidNextPlan(order, sub, catalog, offer) == Ok(row.next) && Covers(row, order, sub, offer) && Accepted(row)
    ensures UpsertOrder(store, at, order, sub, catalog).Ok?
    ensures UpsertOrder(store, at, order, sub, catalog).value.row == Some(row)
  {
    hide ResolveOffer, PaidNextPlan, RowAllowed, OnlyOffer, Accepted, Guarded, Replaceable, NormalizeStatus, Replacing,
         GivenBack, FullRefund, OrderStatus, CheckOrder, PeriodStart, PeriodEnd, PaymentRow, Reaches, ShouldAdvance;
    SoundExactly(order, sub, catalog, offer);
    GuardedExactly(store.row, order.subscriptionId.value, at);
    BillingProjection.StatusExactly(order);
    ReachingAdvances(store.row, order, sub);
    AcceptedExactly(row);
  }

  lemma PaidPlanErrors(order: Order, sub: Option<ProviderSubscription>, catalog: Catalog, offer: Offer)
    ensures PaidNextPlan(order, sub, catalog, offer) != Err(MultipleSubscriptions)
  {
    hide PendingPlan, PeriodEnd;
    if sub.Some? {
      PendingErrors(catalog, sub.value, None, offer);
    }
  }

  /** The scheduled change a paid order keeps is the provider's, if it comes no earlier than the order's coverage
      ends. */
  lemma PaidScheduleExactly(order: Order, sub: Option<ProviderSubscription>, catalog: Catalog, offer: Offer,
                            target: Offer)
    ensures var kept := sub.Some? && sub.value.pendingUpdate.Some? && sub.value.pendingUpdate.value.appliesAt.Some?
                        && (PeriodEnd(order, sub).Some? ==>
                              PeriodEnd(order, sub).value <= sub.value.pendingUpdate.value.appliesAt.value);
            && (!kept ==> PaidNextPlan(order, sub, catalog, offer) == Ok(NextPlan(None, None, None)))
            && (kept && OnlyOffer(catalog, Some(sub.value.pendingUpdate.value.productId), None, target) ==>
                  PaidNextPlan(order, sub, catalog, offer)
                  == Ok(NextPlan(Some(target.planId), Some(target.interval), sub.value.pendingUpdate.value.appliesAt)))
  {
    hide PendingPlan, PeriodEnd, OnlyOffer;
    if sub.Some? {
      ScheduleExactly(catalog, sub.value, None, offer, target);
    }
  }

  /** An order that pays nothing any more, or nothing yet, is recorded beside a row that stays as it is, unless its
      money is back and it reaches as far as the coverage of its own subscription. */
  lemma UnpaidOrderExactly(store: Store, at: Time, order: Order, sub: Option<ProviderSubscription>, catalog: Catalog,
                           offer: Offer)
    requires Sound(order, sub, catalog, offer) && !PaidFor(order) && StoredRow(store.row)
    ensures var r := UpsertOrder(store, at, order, sub, catalog);
            var before := if order.id in store.payments then Some(store.payments[order.id]) else None;
            && (r.Err? <==> Guarded(store.row, order.subscriptionId.value, at))
            && (r.Err? ==> r == Err(MultipleSubscriptions))
            && (r.Ok? ==>
                  && r.value.payments.Keys == store.payments.Keys + {order.id}
                  && (forall id <- store.payments :: id != order.id ==> r.value.payments[id] == store.payments[id])
                  && Records(before, r.value.payments[order.id], at, order, sub, offer)
                  && r.value.customer == (if order.customerId.Some? then order.customerId else store.customer)
                  && (!GivenBack(order) ==> r.value.row == store.row && r.value.revokes == store.revokes))
  {
    hide ResolveOffer, PaidNextPlan, RowAllowed, OnlyOffer, Guarded, Replaceable, Replacing, GivenBack, FullRefund,
         OrderStatus, CheckOrder, PeriodStart, PeriodEnd, PaymentRow, Records, InvalidatedRow;
    SoundExactly(order, sub, catalog, offer);
    GuardedExactly(store.row, order.subscriptionId.value, at);
    BillingProjection.StatusExactly(order);
    PaymentRecords(if order.id in store.payments then Some(store.payments[order.id]) else None, at, order, sub, offer);
    if store.row.Some? {
      InvalidatedStaysAllowed(store.row.value, at);
    }
  }

  /** An order that is not sound changes nothing. */
  lemma UnsoundIsRefused(store: Store, at: Time, order: Order, sub: Option<ProviderSubscription>, catalog: Catalog)
    requires forall offer :: !Sound(order, sub, catalog, offer)
    ensures UpsertOrder(store, at, order, sub, catalog).Err?
  {
    hide Sound, ResolveOffer, Replaceable, PaidNextPlan, RowAllowed, CheckOrder;
    var offer := CheckOrder(order, sub, catalog);
    if offer.Ok? {
      SoundExactly(order, sub, catalog, offer.value);
    }
  }
}
