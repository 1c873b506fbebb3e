/** Which listings of the provider a reconciliation projects, and what it takes from them. */
module BillingListing {
  import opened Wrappers
  import opened BillingProjection
  import opened BillingReconciliation
  import opened BillingEvents

  // The subscription that speaks for the user.

  /** In a status the provider bills a subscription is live; in any other while its period is not over, and once it is
      canceled or revoked only until it has ended. */
  ghost predicate Live(sub: ProviderSubscription, now: Time) {
    sub.status in {"trialing", "active", "past_due", "unpaid", "incomplete", "paused"}
    || (&& (if sub.periodEnd.Some? then now < sub.periodEnd.value else sub.endsAt.Some? && now < sub.endsAt.value)
        && (sub.status in {"canceled", "revoked"} ==>
              if sub.endedAt.Some? then now < sub.endedAt.value else sub.endsAt.Some? ==> now < sub.endsAt.value))
  }

  lemma LiveExactly(sub: ProviderSubscription, now: Time)
    ensures IsCurrent(sub, now) <==> Live(sub, now)
  {
    assert sub.status in ["trialing", "active", "past_due", "unpaid", "incomplete", "paused"]
           <==> sub.status in {"trialing", "active", "past_due", "unpaid", "incomplete", "paused"};
    assert sub.status in ["canceled", "revoked"] <==> sub.status in {"canceled", "revoked"};
  }

  /** What can make a listed subscription the one: it is live, the stored row names it, or it is listed at all. */
  datatype Claim = IsLive | IsStored | IsListed

  ghost predicate Claims(sub: ProviderSubscription, claim: Claim, stored: Option<string>, now: Time) {
    && sub.id != ""
    && match claim
       case IsLive => Live(sub, now)
       case IsStored => stored == Some(sub.id)
       case IsListed => true
  }

  ghost predicate Nobody(subs: seq<ProviderSubscription>, claim: Claim, stored: Option<string>, now: Time) {
    forall s <- subs :: !Claims(s, claim, stored, now)
  }

  ghost predicate OnlyAt(subs: seq<ProviderSubscription>, claim: Claim, stored: Option<string>, now: Time, i: nat)
    requires i < |subs|
  {
    && Claims(subs[i], claim, stored, now)
    && forall j | 0 <= j < |subs| && j != i :: !Claims(subs[j], claim, stored, now)
  }

  ghost predicate OnlyOne(subs: seq<ProviderSubscription>, claim: Claim, stored: Option<string>, now: Time,
                          sub: ProviderSubscription) {
    exists i | 0 <= i < |subs| :: subs[i] == sub && OnlyAt(subs, claim, stored, now, i)
  }

  ghost predicate Several(subs: seq<ProviderSubscription>, claim: Claim, stored: Option<string>, now: Time) {
    exists i, j | 0 <= i < j < |subs| :: Claims(subs[i], claim, stored, now) && Claims(subs[j], claim, stored, now)
  }

  ghost function Claimants(subs: seq<ProviderSubscription>, claim: Claim, stored: Option<string>,
                           now: Time): seq<ProviderSubscription> {
    if subs == [] then []
    else (if Claims(subs[0], claim, stored, now) then [subs[0]] else []) + Claimants(subs[1..], claim, stored, now)
  }

  lemma NobodyNext(subs: seq<ProviderSubscription>, claim: Claim, stored: Option<string>, now: Time)
    requires subs != []
    ensures Nobody(subs, claim, stored, now)
            <==> !Claims(subs[0], claim, stored, now) && Nobody(subs[1..], claim, stored, now)
  {
    hide Claims;
    assert forall s :: s in subs <==> s == subs[0] || s in subs[1..];
  }

  lemma OnlyAtNext(subs: seq<ProviderSubscription>, claim: Claim, stored: Option<string>, now: Time, i: nat)
    requires i < |subs|
    ensures OnlyAt(subs, claim, stored, now, i)
            <==> if i == 0 then Claims(subs[0], claim, stored, now) && Nobody(subs[1..], claim, stored, now)
                 else !Claims(subs[0], claim, stored, now) && OnlyAt(subs[1..], claim, stored, now, i - 1)
  {
    hide Claims;
    var rest := subs[1..];
    assert forall j | 0 < j < |subs| :: subs[j] == rest[j - 1] && rest[j - 1] in rest;
  }

  lemma OnlyOneNext(subs: seq<ProviderSubscription>, claim: Claim, stored: Option<string>, now: Time,
                    sub: ProviderSubscription)
    requires subs != []
    ensures OnlyOne(subs, claim, stored, now, sub)
            <==> if Claims(subs[0], claim, stored, now) then sub == subs[0] && Nobody(subs[1..], claim, stored, now)
                 else OnlyOne(subs[1..], claim, stored, now, sub)
  {
    hide Claims, OnlyAt, Nobody;
    var rest := subs[1..];
    forall i | 0 <= i < |subs|
      ensures OnlyAt(subs, claim, stored, now, i)
              <==> if i == 0 then Claims(subs[0], claim, stored, now) && Nobody(rest, claim, stored, now)
                   else !Claims(subs[0], claim, stored, now) && OnlyAt(rest, claim, stored, now, i - 1)
    {
      OnlyAtNext(subs, claim, stored, now, i);
    }
    if OnlyOne(rest, claim, stored, now, sub) {
      var i :| 0 <= i < |rest| && rest[i] == sub && OnlyAt(rest, claim, stored, now, i);
      assert subs[i + 1] == sub && (Claims(subs[0], claim, stored, now) || OnlyAt(subs, claim, stored, now, i + 1));
    }
  }

  lemma SeveralMore(subs: seq<ProviderSubscription>, claim: Claim, stored: Option<string>, now: Time)
    requires subs != []
    requires Several(subs[1..], claim, stored, now)
             || (Claims(subs[0], claim, stored, now) && !Nobody(subs[1..], claim, stored, now))
    ensures Several(subs, claim, stored, now)
  {
    hide Claims;
    var rest := subs[1..];
    if Several(rest, claim, stored, now) {
      var i, j :| 0 <= i < j < |rest| && Claims(rest[i], claim, stored, now) && Claims(rest[j], claim, stored, now);
      assert subs[i + 1] == rest[i] && subs[j + 1] == rest[j];
    } else {
      var j :| 0 <= j < |rest| && Claims(rest[j], claim, stored, now);
      assert subs[j + 1] == rest[j];
    }
  }

  lemma SeveralNext(subs: seq<ProviderSubscription>, claim: Claim, stored: Option<string>, now: Time)
    requires subs != []
    ensures Several(subs, claim, stored, now)
            <==> Several(subs[1..], claim, stored, now)
                 || (Claims(subs[0], claim, stored, now) && !Nobody(subs[1..], claim, stored, now))
  {
    if Several(subs, claim, stored, now) {
      hide Claims;
      var rest := subs[1..];
      var i, j :| 0 <= i < j < |subs| && Claims(subs[i], claim, stored, now) && Claims(subs[j], claim, stored, now);
      assert subs[j] == rest[j - 1] && rest[j - 1] in rest && (i > 0 ==> subs[i] == rest[i - 1]);
    } else {
      hide Several, Nobody, Claims;
      if Several(subs[1..], claim, stored, now)
         || (Claims(subs[0], claim, stored, now) && !Nobody(subs[1..], claim, stored, now)) {
        SeveralMore(subs, claim, stored, now);
      }
    }
  }

  lemma {:induction false} ClaimantsSay(subs: seq<ProviderSubscription>, claim: Claim, stored: Option<string>,
                                        now: Time)
    ensures Claimants(subs, claim, stored, now) == [] <==> Nobody(subs, claim, stored, now)
    ensures forall sub :: Claimants(subs, claim, stored, now) == [sub] <==> OnlyOne(subs, claim, stored, now, sub)
    ensures |Claimants(subs, claim, stored, now)| > 1 <==> Several(subs, claim, stored, now)
  {
    if subs != [] {
      hide Claims, Nobody, OnlyOne, Several;
      ClaimantsSay(subs[1..], claim, stored, now);
      NobodyNext(subs, claim, stored, now);
      SeveralNext(subs, claim, stored, now);
      forall sub
        ensures OnlyOne(subs, claim, stored, now, sub) <==> Claimants(subs, claim, stored, now) == [sub]
      {
        OnlyOneNext(subs, claim, stored, now, sub);
        OneMore(subs[0], Claimants(subs[1..], claim, stored, now), sub);
      }
      var more := Claimants(subs[1..], claim, stored, now);
      assert [] + more == more;
    }
  }

  lemma {:induction false} LiveClaimants(subs: seq<ProviderSubscription>, stored: Option<string>, now: Time)
    ensures Current(subs, now) == Claimants(subs, IsLive, stored, now)
  {
    if subs != [] {
      hide IsCurrent, Live;
      LiveExactly(subs[0], now);
      LiveClaimants(subs[1..], stored, now);
    }
  }

  lemma {:induction false} OtherClaimants(subs: seq<ProviderSubscription>, stored: Option<string>, now: Time)
    ensures Valid(subs) == Claimants(subs, IsListed, stored, now)
    ensures stored.Some? && stored.value != "" ==>
              Named(Valid(subs), stored.value) == Claimants(subs, IsStored, stored, now)
    ensures stored.None? || stored.value == "" ==> Claimants(subs, IsStored, stored, now) == []
  {
    if subs != [] {
      OtherClaimants(subs[1..], stored, now);
      var first, more := subs[0], Valid(subs[1..]);
      if first.id != "" && stored.Some? {
        assert ([first] + more)[1..] == more;
      } else {
        assert [] + more == more;
      }
    }
  }

  /** Which listed subscription is chosen: the only live one, else the only one the stored row names, else the only one
      listed. With several live ones, or several of the stored id, the choice is ambiguous; else there is none. */
  lemma SelectionExactly(subs: seq<ProviderSubscription>, stored: Option<string>, now: Time)
    ensures var choice := SelectSubscription(subs, stored, now);
            var noneLive, noneStored := Nobody(subs, IsLive, stored, now), Nobody(subs, IsStored, stored, now);
            && (forall sub ::
                  choice == Chosen(sub)
                  <==> OnlyOne(subs, IsLive, stored, now, sub)
                       || (noneLive && OnlyOne(subs, IsStored, stored, now, sub))
                       || (noneLive && noneStored && OnlyOne(subs, IsListed, stored, now, sub)))
            && (choice == Ambiguous
                <==> Several(subs, IsLive, stored, now) || (noneLive && Several(subs, IsStored, stored, now)))
            && (choice == Nothing(true) <==> noneLive && noneStored && Several(subs, IsListed, stored, now))
            && (choice == Nothing(false) <==> Nobody(subs, IsListed, stored, now))
  {
    hide Claims, Nobody, OnlyOne, Several, Current, Valid, Named, Claimants;
    LiveClaimants(subs, stored, now);
    OtherClaimants(subs, stored, now);
    ClaimantsSay(subs, IsLive, stored, now);
    ClaimantsSay(subs, IsStored, stored, now);
    ClaimantsSay(subs, IsListed, stored, now);
    ListedIfClaimed(subs, stored, now);
    OneElement(Current(subs, now));
    OneElement(Valid(subs));
    OneElement(Claimants(subs, IsStored, stored, now));
  }

  lemma OneElement<T>(s: seq<T>)
    ensures |s| == 1 <==> s != [] && s == [s[0]]
    ensures forall x :: s == [x] <==> |s| == 1 && s[0] == x
  {
  }

  lemma ListedIfClaimed(subs: seq<ProviderSubscription>, stored: Option<string>, now: Time)
    ensures Nobody(subs, IsListed, stored, now) ==>
              Nobody(subs, IsLive, stored, now) && Nobody(subs, IsStored, stored, now)
  {
    hide Live;
  }

  // The orders it brings, and in which order they are folded.

  /** `part` is `whole` without some of its elements. */
  ghost predicate Subsequence(part: seq<Order>, whole: seq<Order>) {
    if whole == [] then part == []
    else (part != [] && part[0] == whole[0] && Subsequence(part[1..], whole[1..])) || Subsequence(part, whole[1..])
  }

  lemma FirstApart(orders: seq<Order>)
    requires orders != []
    ensures multiset(orders) == multiset{orders[0]} + multiset(orders[1..])
  {
    assert orders == [orders[0]] + orders[1..];
  }

  lemma KeptOrDropped(first: Order, more: seq<Order>, keep: bool)
    ensures var kept := (if keep then [first] else []) + more;
            multiset(kept) == (if keep then multiset{first} else multiset{}) + multiset(more)
            && if keep then kept != [] && kept[0] == first && kept[1..] == more else kept == more
  {
    assert !keep ==> [] + more == more;
    assert ([first] + more)[1..] == more;
  }

  /** The orders of the chosen subscription: exactly those listed under its id, in the order of the listing. */
  lemma {:induction false} RelevantExactly(orders: seq<Order>, id: string)
    ensures var relevant := RelevantOrders(orders, id);
            && Subsequence(relevant, orders)
            && forall o :: multiset(relevant)[o] == if o.subscriptionId == Some(id) then multiset(orders)[o] else 0
  {
    if orders != [] {
      RelevantExactly(orders[1..], id);
      FirstApart(orders);
      KeptOrDropped(orders[0], RelevantOrders(orders[1..], id), orders[0].subscriptionId == Some(id));
    }
  }

  lemma {:induction false} WhereExactly(orders: seq<Order>, back: bool)
    ensures var part := Where(orders, back);
            && Subsequence(part, orders)
            && forall o :: multiset(part)[o] == if GivenBack(o) == back then multiset(orders)[o] else 0
  {
    if orders != [] {
      hide GivenBack, FullRefund;
      WhereExactly(orders[1..], back);
      BillingProjection.StatusExactly(orders[0]);
      FirstApart(orders);
      KeptOrDropped(orders[0], Where(orders[1..], back), GivenBack(orders[0]) == back);
    }
  }

  /** They are folded in two rounds, each in the order of the listing: first those whose money was not given back, then
      the others, every order once. */
  lemma ProjectionExactly(orders: seq<Order>)
    ensures var folded, cut := ProjectionOrders(orders), |Where(orders, false)|;
            && multiset(folded) == multiset(orders) && cut <= |folded|
            && Subsequence(folded[..cut], orders) && Subsequence(folded[cut..], orders)
            && (forall o <- folded[..cut] :: !GivenBack(o)) && forall o <- folded[cut..] :: GivenBack(o)
  {
    hide GivenBack, Subsequence, Where;
    var kept, back := Where(orders, false), Where(orders, true);
    assert (kept + back)[..|kept|] == kept && (kept + back)[|kept|..] == back;
    WhereExactly(orders, false);
    WhereExactly(orders, true);
    assert forall o <- kept :: multiset(kept)[o] > 0;
    assert forall o <- back :: multiset(back)[o] > 0;
  }

  // Which of them can be interpreted.

  /** The order names exactly one offer; if it was paid or given back it has a forward period of its own and the offer's
      currency. */
  ghost predicate Covered(order: Order, catalog: Catalog, offer: Offer) {
    && order.productId.Some? && order.priceId.Some? && OnlyOffer(catalog, order.productId, order.priceId, offer)
    && (PaidFor(order) || GivenBack(order) ==>
          order.period.Some? && order.period.value.0 < order.period.value.1 && order.currency == offer.currency)
  }

  /** No more was refunded than paid, and all of it if the order says so. */
  ghost predicate AddsUp(order: Order) {
    order.refunded <= order.amount && (order.status == "refunded" ==> order.refunded == order.amount)
  }

  ghost predicate Interpretable(order: Order, catalog: Catalog) {
    AddsUp(order) && exists offer <- catalog :: Covered(order, catalog, offer)
  }

  ghost predicate NamesOffer(product: Option<string>, price: Option<string>, catalog: Catalog) {
    product.Some? && price.Some? && exists offer <- catalog :: OnlyOffer(catalog, product, price, offer)
  }

  lemma NamesExactly(product: Option<string>, price: Option<string>, catalog: Catalog)
    ensures NamesOffer(product, price, catalog)
            <==> product.Some? && price.Some? && ResolveOffer(catalog, product, price).Ok?
  {
    hide ResolveOffer, OnlyOffer;
    var r := ResolveOffer(catalog, product, price);
    if r.Ok? {
      OfferExactly(catalog, product, price, r.value);
      OnlyOfferListed(catalog, product, price, r.value);
    }
    forall offer <- catalog
      ensures OnlyOffer(catalog, product, price, offer) ==> r == Ok(offer)
    {
      OfferExactly(catalog, product, price, offer);
    }
  }

  lemma OnlyOfferListed(catalog: Catalog, product: Option<string>, price: Option<string>, offer: Offer)
    ensures OnlyOffer(catalog, product, price, offer) ==> offer in catalog
  {
  }

  /** What is wrong with an order: first its offer, then its period or currency, then its money. */
  lemma OrderProblemExactly(order: Order, catalog: Catalog)
    ensures var problem := OrderProblem(order, catalog);
            && (problem.None? <==> Interpretable(order, catalog))
            && (problem == Some("UNKNOWN_OR_AMBIGUOUS_OFFER")
                <==> !NamesOffer(order.productId, order.priceId, catalog))
            && (problem == Some("REFUND_INTERPRETATION_AMBIGUOUS")
                <==> !AddsUp(order) && exists offer <- catalog :: Covered(order, catalog, offer))
            && (problem.Some? ==> problem.value in {"UNKNOWN_OR_AMBIGUOUS_OFFER", "PROVIDER_STATE_AMBIGUOUS",
                                                    "REFUND_INTERPRETATION_AMBIGUOUS"})
  {
    hide ResolveOffer, OnlyOffer, Pays, FullRefund, PaidFor, GivenBack;
    NamesExactly(order.productId, order.priceId, catalog);
    BillingProjection.StatusExactly(order);
    var r := ResolveOffer(catalog, order.productId, order.priceId);
    if r.Ok? {
      OfferExactly(catalog, order.productId, order.priceId, r.value);
      OnlyOfferListed(catalog, order.productId, order.priceId, r.value);
    }
    forall offer <- catalog
      ensures OnlyOffer(catalog, order.productId, order.priceId, offer) <==> r == Ok(offer)
    {
      OfferExactly(catalog, order.productId, order.priceId, offer);
    }
  }

  /** The order is the first with a problem. */
  ghost predicate FirstWrong(orders: seq<Order>, catalog: Catalog, i: nat) {
    && i < |orders| && !Interpretable(orders[i], catalog)
    && forall j | 0 <= j < i :: Interpretable(orders[j], catalog)
  }

  lemma FirstWrongNext(orders: seq<Order>, catalog: Catalog, i: nat)
    requires orders != [] && Interpretable(orders[0], catalog) && FirstWrong(orders[1..], catalog, i)
    ensures FirstWrong(orders, catalog, i + 1) && orders[i + 1] == orders[1..][i]
  {
    hide Interpretable;
    assert forall j | 0 < j <= i + 1 :: orders[j] == orders[1..][j - 1];
  }

  /** The problem reported is that of the first order with one. */
  lemma {:induction false} FirstProblemExactly(orders: seq<Order>, catalog: Catalog)
    ensures var problem := FirstProblem(orders, catalog);
            && (problem.None? <==> forall o <- orders :: Interpretable(o, catalog))
            && (problem.Some? ==>
                  exists i | 0 <= i < |orders| ::
                    FirstWrong(orders, catalog, i) && OrderProblem(orders[i], catalog) == problem)
  {
    if orders != [] {
      hide OrderProblem, Interpretable;
      var rest := orders[1..];
      OrderProblemExactly(orders[0], catalog);
      FirstProblemExactly(rest, catalog);
      assert forall o :: o in orders <==> o == orders[0] || o in rest;
      if OrderProblem(orders[0], catalog).Some? {
        assert FirstWrong(orders, catalog, 0);
      } else if FirstProblem(rest, catalog).Some? {
        var i: nat :| i < |rest| && FirstWrong(rest, catalog, i)
                      && OrderProblem(rest[i], catalog) == FirstProblem(rest, catalog);
        FirstWrongNext(orders, catalog, i);
      }
    }
  }

  // The whole pass.

  /** What the stored row knows the user's subscription by, if anything. */
  ghost predicate Bound(store: Store, id: string) {
    id != "" && store.row.Some? && store.row.value.subscriptionId == Some(id)
  }

  ghost predicate Missing(store: Store, subs: seq<ProviderSubscription>) {
    exists id :: Bound(store, id) && forall s <- subs :: s.id != id
  }

  /** Everybody is named, and everything listed has an id of its own. */
  ghost predicate Identified(subs: seq<ProviderSubscription>, orders: seq<Order>) {
    && (forall s <- subs :: s.id != "" && s.customerId.Some?)
    && (forall o <- orders :: o.id != "" && o.subscriptionId.Some? && o.customerId.Some?)
    && (forall i, j | 0 <= i < j < |subs| :: subs[i].id != subs[j].id)
    && forall i, j | 0 <= i < j < |orders| :: orders[i].id != orders[j].id
  }

  ghost predicate Chooses(store: Store, subs: seq<ProviderSubscription>, now: Time, sub: ProviderSubscription) {
    !Missing(store, subs) && SelectSubscription(subs, LocalId(store), now) == Chosen(sub)
  }

  /** The chosen subscription and each of its orders can be interpreted. */
  ghost predicate Clear(subs: seq<ProviderSubscription>, orders: seq<Order>, catalog: Catalog,
                        sub: ProviderSubscription) {
    && Identified(subs, orders) && NamesOffer(sub.productId, sub.priceId, catalog)
    && forall o <- orders | o.subscriptionId == Some(sub.id) :: Interpretable(o, catalog)
  }

  /** The subscription, its orders and what is stored name one customer. */
  ghost predicate OneCustomer(store: Store, orders: seq<Order>, sub: ProviderSubscription) {
    && (forall o <- orders | o.subscriptionId == Some(sub.id) :: o.customerId == sub.customerId)
    && (store.customer.Some? ==> store.customer == sub.customerId)
    && (store.customer.None? && store.row.Some? && store.row.value.customerId.Some? ==>
          store.row.value.customerId == sub.customerId)
  }

  lemma {:induction false} NamedIsListed(subs: seq<ProviderSubscription>, id: string)
    ensures Named(subs, id) == [] <==> forall s <- subs :: s.id != id
  {
    if subs != [] {
      NamedIsListed(subs[1..], id);
      assert forall s :: s in subs <==> s == subs[0] || s in subs[1..];
    }
  }

  lemma MissingExactly(store: Store, subs: seq<ProviderSubscription>)
    ensures Missing(store, subs)
            <==> LocalId(store).Some? && LocalId(store).value != "" && Named(subs, LocalId(store).value) == []
  {
    hide Named;
    if LocalId(store).Some? && LocalId(store).value != "" {
      var id := LocalId(store).value;
      assert Bound(store, id);
      NamedIsListed(subs, id);
    }
  }

  lemma RelevantAre(orders: seq<Order>, id: string)
    ensures forall o :: o in RelevantOrders(orders, id) <==> o in orders && o.subscriptionId == Some(id)
  {
    hide RelevantOrders;
    RelevantExactly(orders, id);
    var relevant := RelevantOrders(orders, id);
    forall o: Order
      ensures o in relevant <==> o in orders && o.subscriptionId == Some(id)
    {
      assert o in relevant <==> multiset(relevant)[o] > 0;
      assert o in orders <==> multiset(orders)[o] > 0;
    }
  }

  lemma ClearExactly(subs: seq<ProviderSubscription>, orders: seq<Order>, catalog: Catalog, sub: ProviderSubscription)
    ensures var problem := BundleProblem(subs, orders, sub, RelevantOrders(orders, sub.id), catalog);
            && (problem.None? <==> Clear(subs, orders, catalog, sub))
            && (problem.Some? ==> problem.value in {"UNKNOWN_OR_AMBIGUOUS_OFFER", "PROVIDER_STATE_AMBIGUOUS",
                                                    "REFUND_INTERPRETATION_AMBIGUOUS"})
  {
    hide RelevantOrders, FirstProblem, ResolveOffer, NamesOffer, Interpretable, OrderProblem;
    RelevantAre(orders, sub.id);
    NamesExactly(sub.productId, sub.priceId, catalog);
    var relevant := RelevantOrders(orders, sub.id);
    FirstProblemExactly(relevant, catalog);
    forall o <- relevant
      ensures OrderProblem(o, catalog).Some? ==>
                OrderProblem(o, catalog).value in {"UNKNOWN_OR_AMBIGUOUS_OFFER", "PROVIDER_STATE_AMBIGUOUS",
                                                   "REFUND_INTERPRETATION_AMBIGUOUS"}
    {
      OrderProblemExactly(o, catalog);
    }
  }

  lemma CustomerExactly(store: Store, subs: seq<ProviderSubscription>, orders: seq<Order>, catalog: Catalog,
                        sub: ProviderSubscription)
    requires Clear(subs, orders, catalog, sub) && sub in subs
    ensures BindingsAgree(store, sub, RelevantOrders(orders, sub.id)) <==> OneCustomer(store, orders, sub)
  {
    hide RelevantOrders, NamesOffer, Interpretable;
    RelevantAre(orders, sub.id);
  }

  /** What the tables make of the listing: the projected facts, and whether customer, row or payments differ; or a
      reason and nothing else. */
  ghost predicate Projected(store: Store, sub: ProviderSubscription, orders: seq<Order>, catalog: Catalog, graceMs: nat,
                            now: Time, after: Store, r: Outcome) {
    var project := Project(store, sub, orders, catalog, graceMs, now);
    if project.Ok? then
      && after == project.value
      && r == Reconciled(store.customer != after.customer || store.row != after.row
                         || store.payments != after.payments)
    else
      && after == store
      && r == Exception(if project.error.OfferAmbiguous? then "UNKNOWN_OR_AMBIGUOUS_OFFER"
                        else if project.error.MultipleSubscriptions? then "MULTIPLE_SUBSCRIPTIONS_UNEXPECTED"
                        else "PROVIDER_STATE_AMBIGUOUS")
  }

  lemma BoundIsLocal(store: Store, subs: seq<ProviderSubscription>)
    ensures (exists id :: Bound(store, id)) <==> LocalId(store).Some? && LocalId(store).value != ""
    ensures Missing(store, subs) ==> exists id :: Bound(store, id)
  {
    if LocalId(store).Some? && LocalId(store).value != "" {
      assert Bound(store, LocalId(store).value);
    }
  }

  lemma SomebodyListed(subs: seq<ProviderSubscription>, stored: Option<string>, now: Time)
    ensures SelectSubscription(subs, stored, now).Ambiguous? ==> !Nobody(subs, IsListed, stored, now)
    ensures Nobody(subs, IsListed, stored, now) <==> forall s <- subs :: s.id == ""
  {
    hide SelectSubscription, Live;
    SelectionExactly(subs, stored, now);
  }

  lemma StoredClaims(store: Store, subs: seq<ProviderSubscription>, now: Time)
    requires !Missing(store, subs) && LocalId(store).Some? && LocalId(store).value != ""
    ensures !Nobody(subs, IsStored, LocalId(store), now)
  {
    assert Bound(store, LocalId(store).value);
  }

  /** While the stored subscription is listed, there is something to choose. */
  lemma StoredIsChosen(store: Store, subs: seq<ProviderSubscription>, now: Time)
    requires !Missing(store, subs) && SelectSubscription(subs, LocalId(store), now).Nothing?
    ensures LocalId(store).None? || LocalId(store).value == ""
    ensures SelectSubscription(subs, LocalId(store), now) == Nothing(false)
            <==> Nobody(subs, IsListed, LocalId(store), now)
  {
    hide SelectSubscription, Nobody, Several, OnlyOne, Missing;
    var nothing := SelectSubscription(subs, LocalId(store), now);
    assert nothing == Nothing(true) || nothing == Nothing(false);
    SelectionExactly(subs, LocalId(store), now);
    ListedIfClaimed(subs, LocalId(store), now);
    if LocalId(store).Some? && LocalId(store).value != "" {
      StoredClaims(store, subs, now);
    }
  }

  /** The whole pass. A listing is projected exactly when one of its subscriptions is chosen, can be interpreted with
      all its orders and agrees with the stored customer, and the tables take it; each refusal changes nothing and has
      its reason. */
  lemma ReconcileExactly(store: Store, subs: seq<ProviderSubscription>, orders: seq<Order>, uncertain: bool,
                         catalog: Catalog, graceMs: nat, now: Time, sub: ProviderSubscription)
    ensures var (after, r) := Reconcile(store, subs, orders, uncertain, catalog, graceMs, now);
            && (!r.Reconciled? ==> after == store)
            && (r == Exception("PROVIDER_SUBSCRIPTION_MISSING") <==> Missing(store, subs))
            && (r == NothingToProject <==> && (forall id :: !Bound(store, id)) && orders == [] && !uncertain
                                           && forall s <- subs :: s.id == "")
            && (r == Exception("BINDING_CONTRADICTION")
                <==> exists s <- subs :: Chooses(store, subs, now, s) && Clear(subs, orders, catalog, s)
                                         && !OneCustomer(store, orders, s))
            && (r.Reconciled? ==>
                  exists s <- subs :: Chooses(store, subs, now, s) && Clear(subs, orders, catalog, s)
                                      && OneCustomer(store, orders, s))
            && (Chooses(store, subs, now, sub) && !Clear(subs, orders, catalog, sub) ==>
                  r.Exception? && r.reason in {"UNKNOWN_OR_AMBIGUOUS_OFFER", "PROVIDER_STATE_AMBIGUOUS",
                                               "REFUND_INTERPRETATION_AMBIGUOUS"})
            && (&& Chooses(store, subs, now, sub) && Clear(subs, orders, catalog, sub)
                && OneCustomer(store, orders, sub) ==>
                  Projected(store, sub, RelevantOrders(orders, sub.id), catalog, graceMs, now, after, r))
  {
    hide SelectSubscription, BundleProblem, BindingsAgree, RelevantOrders, Project, Clear, OneCustomer, Missing, Bound,
         Named, Nobody, Current;
    MissingExactly(store, subs);
    var choice := SelectSubscription(subs, LocalId(store), now);
    BoundIsLocal(store, subs);
    SomebodyListed(subs, LocalId(store), now);
    if !Missing(store, subs) {
      match choice
      case Ambiguous =>
      case Nothing(_) =>
        StoredIsChosen(store, subs, now);
      case Chosen(s) =>
        ChosenIsListed(subs, LocalId(store), now);
        ClearExactly(subs, orders, catalog, s);
        if Clear(subs, orders, catalog, s) {
          CustomerExactly(store, subs, orders, catalog, s);
        }
    }
  }
}
