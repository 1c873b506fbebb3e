/** Billing V1 access as a function of the stored subscription, the grants and one instant. */
module AccessResolver {
  import opened Wrappers

  datatype Capabilities = Capabilities(uploadProject: bool, bulkYoutubeUpload: string, earlyAccess: bool)

  /** None is the catalog's null: no commercial limit. */
  datatype Quotas = Quotas(maxBeats: Option<nat>, maxProjectZipBytes: nat, youtubePerDay: Option<nat>,
                           youtubePerMonth: Option<nat>)

  datatype Plan = Plan(id: string, title: string, rank: int, capabilities: Capabilities, quotas: Quotas)

  type Catalog = map<string, Plan>

  const FREE := "free"

  predicate ValidCatalog(catalog: Catalog) {
    && FREE in catalog && catalog[FREE].rank == 0
    && (forall id <- catalog :: catalog[id].id == id && catalog[id].rank >= 0)
    && forall a, b | a in catalog && b in catalog && a != b :: catalog[a].rank != catalog[b].rank
  }

  /** A timestamp as it arrives: missing, a finite instant, or text that is no date. */
  datatype RawTime = Absent | Instant(ms: int) | Malformed

  datatype RawSubscription = RawSubscription(
    planId: string, paidThrough: RawTime, pastDueAt: RawTime, graceUntil: RawTime, accessInvalidatedAt: RawTime,
    providerStatus: string, invalidationReason: Option<string>, currentPeriodEnd: RawTime, endedAt: RawTime,
    cancelAtPeriodEnd: bool, nextPlanId: string, nextInterval: Option<string>, nextPlanEffectiveAt: RawTime)

  datatype RawGrant = RawGrant(
    id: string, planId: string, source: string, sourceKey: string, startsAt: RawTime, expiresAt: RawTime,
        revokedAt: RawTime)

  /** Facts the resolver reports without deciding anything from them. */
  datatype Reported = Reported(
    providerStatus: string, invalidationReason: Option<string>, currentPeriodEnd: Option<int>, endedAt: Option<int>,
    cancelAtPeriodEnd: bool, nextPlanId: Option<string>, nextInterval: Option<string>, nextPlanEffectiveAt: Option<int>)

  datatype Subscription = Subscription(
    planId: Option<string>, paidThrough: Option<int>, pastDueAt: Option<int>, graceUntil: Option<int>,
    accessInvalidatedAt: Option<int>, reported: Reported)

  datatype Grant = Grant(
    id: string, planId: string, source: string, sourceKey: string, startsAt: int, expiresAt: int,
        revokedAt: Option<int>)

  datatype Mode = Paid | Grace

  datatype Source =
    | Baseline
    | Commercial(mode: Mode, planId: string, validUntil: int)
    | Granted(id: string, planId: string, source: string, sourceKey: string, validUntil: int)
  {
    function PlanId(): string {
      if Baseline? then FREE else planId
    }
  }

  datatype CommercialState = NoPlan | Invalidated | PaidAccess | GraceAccess | Unverified

  datatype Access = Access(
    commercialPlanId: string, commercialAccessPlanId: Option<string>, commercialState: CommercialState,
    effectivePlan: Plan, sources: seq<Source>, nextRecalculationAt: Option<int>, subscription: Subscription)

  datatype InputError = InvalidCatalog | InvalidTimestamp

  // Normalisation: independent of the instant.

  function KnownPlan(catalog: Catalog, id: string): Option<string> {
    if id in catalog then Some(id) else None
  }

  function Time(raw: RawTime): Option<int> {
    if raw.Instant? then Some(raw.ms) else None
  }

  function NormalizeSubscription(raw: RawSubscription, catalog: Catalog): Result<Subscription, InputError> {
    var times := [raw.paidThrough, raw.pastDueAt, raw.graceUntil, raw.accessInvalidatedAt, raw.currentPeriodEnd,
                  raw.endedAt, raw.nextPlanEffectiveAt];
    if Malformed in times then Err(InvalidTimestamp)
    else Ok(Subscription(
      KnownPlan(catalog, raw.planId), Time(raw.paidThrough), Time(raw.pastDueAt), Time(raw.graceUntil),
      Time(raw.accessInvalidatedAt),
      Reported(raw.providerStatus, raw.invalidationReason, Time(raw.currentPeriodEnd), Time(raw.endedAt),
               raw.cancelAtPeriodEnd, KnownPlan(catalog, raw.nextPlanId), raw.nextInterval,
                   Time(raw.nextPlanEffectiveAt))))
  }

  /** A grant of an unknown plan, or without a proper interval, is dropped; only known plans have their dates parsed. */
  function NormalizeGrants(raws: seq<RawGrant>, catalog: Catalog): (r: Result<seq<Grant>, InputError>)
    ensures r.Ok? ==> |r.value| <= |raws| && ProperGrants(r.value)
  {
    if raws == [] then Ok([])
    else
      var rest := NormalizeGrants(raws[1..], catalog);
      var raw := raws[0];
      if raw.planId !in catalog then rest
      else if Malformed in [raw.startsAt, raw.expiresAt, raw.revokedAt] then Err(InvalidTimestamp)
      else if rest.Err? || raw.startsAt.Absent? || raw.expiresAt.Absent? || raw.expiresAt.ms <= raw.startsAt.ms
              then rest
      else Ok([Grant(raw.id, raw.planId, raw.source, raw.sourceKey, raw.startsAt.ms, raw.expiresAt.ms,
                     Time(raw.revokedAt))]
              + rest.value)
  }

  predicate ProperGrants(grants: seq<Grant>) {
    forall g <- grants :: g.startsAt < g.expiresAt
  }

  // Sources of access at one instant.

  function CommercialSource(sub: Subscription, now: int): Option<Source> {
    if sub.planId.None? || sub.planId.value == FREE then None
    else if sub.accessInvalidatedAt.Some? && sub.accessInvalidatedAt.value <= now then None
    else if sub.paidThrough.Some? && now < sub.paidThrough.value then
      Some(Commercial(Paid, sub.planId.value, Sooner(sub.paidThrough.value, sub.accessInvalidatedAt, now)))
    else if sub.pastDueAt.Some? && sub.pastDueAt.value <= now && sub.graceUntil.Some? && now < sub.graceUntil.value then
      Some(Commercial(Grace, sub.planId.value, Sooner(sub.graceUntil.value, sub.accessInvalidatedAt, now)))
    else None
  }

  /** minFuture(limit, cut when it is still ahead) */
  function Sooner(limit: int, cut: Option<int>, now: int): int {
    if cut.Some? && cut.value > now then Min(limit, cut.value) else limit
  }

  function ActiveGrant(g: Grant, now: int): Option<Source> {
    if g.startsAt > now || g.expiresAt <= now then None
    else if g.revokedAt.Some? && g.revokedAt.value <= now then None
    else Some(Granted(g.id, g.planId, g.source, g.sourceKey, Sooner(g.expiresAt, g.revokedAt, now)))
  }

  function ActiveGrants(grants: seq<Grant>, now: int): seq<Source> {
    if grants == [] then []
    else
      var active := ActiveGrant(grants[0], now);
      (if active.Some? then [active.value] else []) + ActiveGrants(grants[1..], now)
  }

  function SourceRank(source: Source, catalog: Catalog): int {
    if source.PlanId() in catalog then catalog[source.PlanId()].rank else -1
  }

  function Effective(sources: seq<Source>, catalog: Catalog): (id: string)
    requires ValidCatalog(catalog)
    ensures id in catalog
  {
    if sources == [] then FREE
    else
      var before := Effective(sources[..|sources| - 1], catalog);
      var last := sources[|sources| - 1];
      if SourceRank(last, catalog) > catalog[before].rank then last.PlanId() else before
  }

  /** The effective plan outranks every source, and is Free or the plan of some source: it does not depend on their
      order. */
  lemma {:induction false} EffectiveIsHighest(sources: seq<Source>, catalog: Catalog)
    requires ValidCatalog(catalog)
    ensures var id := Effective(sources, catalog);
            && (forall s <- sources :: SourceRank(s, catalog) <= catalog[id].rank)
            && (id == FREE || exists s <- sources :: s.PlanId() == id)
  {
    if sources != [] {
      var n := |sources| - 1;
      EffectiveIsHighest(sources[..n], catalog);
      assert sources == sources[..n] + [sources[n]];
    }
  }

  lemma EffectiveIgnoresOrder(a: seq<Source>, b: seq<Source>, catalog: Catalog)
    requires ValidCatalog(catalog) && forall s :: s in a <==> s in b
    ensures Effective(a, catalog) == Effective(b, catalog)
  {
    EffectiveIsHighest(a, catalog);
    EffectiveIsHighest(b, catalog);
  }

  // When the answer may next change.

  function FutureStarts(grants: seq<Grant>, now: int): seq<int> {
    if grants == [] then []
    else
      (if grants[0].startsAt > now && grants[0].expiresAt > grants[0].startsAt then [grants[0].startsAt] else [])
      + FutureStarts(grants[1..], now)
  }

  function Ends(active: seq<Source>, now: int): seq<int> {
    if active == [] then []
    else (if !active[0].Baseline? && active[0].validUntil > now then [active[0].validUntil] else [])
         + Ends(active[1..], now)
  }

  function SubscriptionCandidates(sub: Subscription, now: int): seq<int> {
    var active := CommercialSource(sub, now);
    (if active.Some? && active.value.Commercial? && active.value.validUntil > now then [active.value.validUntil]
     else [])
    + (if sub.accessInvalidatedAt.Some? && sub.accessInvalidatedAt.value > now then [sub.accessInvalidatedAt.value]
       else [])
    + if active.None? && sub.pastDueAt.Some? && sub.pastDueAt.value > now
         && sub.graceUntil.Some? && sub.graceUntil.value > sub.pastDueAt.value
      then [sub.pastDueAt.value] else []
  }

  function Candidates(sub: Subscription, grants: seq<Grant>, now: int): seq<int> {
    SubscriptionCandidates(sub, now) + Ends(ActiveGrants(grants, now), now) + FutureStarts(grants, now)
  }

  function Least(xs: seq<int>): Option<int> {
    if xs == [] then None
    else
      var rest := Least(xs[1..]);
      Some(if rest.Some? then Min(xs[0], rest.value) else xs[0])
  }

  lemma {:induction false} LeastIsMinimum(xs: seq<int>)
    ensures xs == [] <==> Least(xs).None?
    ensures xs != [] ==> Least(xs).value in xs && forall x <- xs :: Least(xs).value <= x
  {
    if xs != [] {
      LeastIsMinimum(xs[1..]);
      assert xs == [xs[0]] + xs[1..];
    }
  }

  function NextRecalculation(sub: Subscription, grants: seq<Grant>, now: int): Option<int> {
    Least(Candidates(sub, grants, now))
  }

  function AccessAt(sub: Subscription, grants: seq<Grant>, catalog: Catalog, now: int): Access
    requires ValidCatalog(catalog)
  {
    var commercial := CommercialSource(sub, now);
    var sources := [Baseline] + (if commercial.Some? then [commercial.value] else []) + ActiveGrants(grants, now);
    Access(
      if sub.planId.Some? then sub.planId.value else FREE,
      if commercial.Some? then Some(commercial.value.PlanId()) else None,
      if sub.accessInvalidatedAt.Some? && sub.accessInvalidatedAt.value <= now then Invalidated
      else if commercial.Some? && commercial.value.Commercial?
              then (if commercial.value.mode.Paid? then PaidAccess else GraceAccess)
      else if sub.planId.Some? && sub.planId.value != FREE then Unverified
      else NoPlan,
      catalog[Effective(sources, catalog)], sources, NextRecalculation(sub, grants, now), sub)
  }

  function ResolveBillingAccess(raw: RawSubscription, grants: seq<RawGrant>, now: int,
                                catalog: Catalog): Result<Access, InputError> {
    if !ValidCatalog(catalog) then Err(InvalidCatalog)
    else
      var sub := NormalizeSubscription(raw, catalog);
      var normalized := NormalizeGrants(grants, catalog);
      if sub.Err? then Err(sub.error)
      else if normalized.Err? then Err(normalized.error)
      else Ok(AccessAt(sub.value, normalized.value, catalog, now))
  }

  // The result is constant up to the next recalculation.

  ghost predicate NothingDue(candidates: seq<int>, t: int) {
    forall c <- candidates :: t < c
  }

  ghost predicate InvalidatedBy(sub: Subscription, now: int) {
    sub.accessInvalidatedAt.Some? && sub.accessInvalidatedAt.value <= now
  }

  lemma SteadyCommercial(sub: Subscription, now: int, t: int)
    requires now <= t && NothingDue(SubscriptionCandidates(sub, now), t)
    ensures CommercialSource(sub, t) == CommercialSource(sub, now)
    ensures SubscriptionCandidates(sub, t) == SubscriptionCandidates(sub, now)
  {
    var xs := SubscriptionCandidates(sub, now);
    var active := CommercialSource(sub, now);
    if active.Some? {
      assert active.value.validUntil in xs;
    }
    if sub.accessInvalidatedAt.Some? && sub.accessInvalidatedAt.value > now {
      assert sub.accessInvalidatedAt.value in xs;
    }
    if active.None? && sub.pastDueAt.Some? && sub.pastDueAt.value > now
       && sub.graceUntil.Some? && sub.graceUntil.value > sub.pastDueAt.value {
      assert sub.pastDueAt.value in xs;
    }
  }

  lemma {:induction false} EndsOfFirst(grants: seq<Grant>, now: int)
    requires grants != []
    ensures var first, rest := ActiveGrant(grants[0], now), Ends(ActiveGrants(grants[1..], now), now);
            Ends(ActiveGrants(grants, now), now) == if first.Some? then [first.value.validUntil] + rest else rest
  {
    var first := ActiveGrant(grants[0], now);
    if first.Some? {
      assert ActiveGrants(grants, now)[1..] == ActiveGrants(grants[1..], now);
    } else {
      assert ActiveGrants(grants, now) == ActiveGrants(grants[1..], now);
    }
  }

  lemma SteadyGrant(g: Grant, now: int, t: int)
    requires now <= t && g.startsAt < g.expiresAt
    requires g.startsAt > now ==> g.startsAt > t
    requires var active := ActiveGrant(g, now); active.Some? ==> t < active.value.validUntil
    ensures ActiveGrant(g, t) == ActiveGrant(g, now)
  {
  }

  lemma {:induction false} SteadyGrants(grants: seq<Grant>, now: int, t: int)
    requires now <= t && ProperGrants(grants)
    requires NothingDue(Ends(ActiveGrants(grants, now), now), t) && NothingDue(FutureStarts(grants, now), t)
    ensures ActiveGrants(grants, t) == ActiveGrants(grants, now)
    ensures Ends(ActiveGrants(grants, t), t) == Ends(ActiveGrants(grants, now), now)
    ensures FutureStarts(grants, t) == FutureStarts(grants, now)
  {
    if grants != [] {
      hide ActiveGrant;
      EndsOfFirst(grants, now);
      EndsOfFirst(grants, t);
      var g, active := grants[0], ActiveGrant(grants[0], now);
      if active.Some? {
        assert active.value.validUntil in Ends(ActiveGrants(grants, now), now);
      }
      if g.startsAt > now {
        assert g.startsAt in FutureStarts(grants, now);
      }
      SteadyGrant(g, now, t);
      NothingDueIn(Ends(ActiveGrants(grants[1..], now), now), Ends(ActiveGrants(grants, now), now), t);
      NothingDueIn(FutureStarts(grants[1..], now), FutureStarts(grants, now), t);
      SteadyGrants(grants[1..], now, t);
    }
  }

  lemma NothingDueIn(parts: seq<int>, whole: seq<int>, t: int)
    requires NothingDue(whole, t) && forall c :: c in parts ==> c in whole
    ensures NothingDue(parts, t)
  {
  }

  lemma SameAccess(sub: Subscription, grants: seq<Grant>, catalog: Catalog, now: int, t: int)
    requires ValidCatalog(catalog) && CommercialSource(sub, t) == CommercialSource(sub, now)
    requires ActiveGrants(grants, t) == ActiveGrants(grants, now)
    requires NextRecalculation(sub, grants, t) == NextRecalculation(sub, grants, now)
    requires InvalidatedBy(sub, t) <==> InvalidatedBy(sub, now)
    ensures AccessAt(sub, grants, catalog, t) == AccessAt(sub, grants, catalog, now)
  {
    hide Effective, ActiveGrants, CommercialSource, ValidCatalog, NextRecalculation;
  }

  lemma SteadyCandidates(sub: Subscription, grants: seq<Grant>, now: int, t: int)
    requires ProperGrants(grants) && now <= t && NothingDue(Candidates(sub, grants, now), t)
    ensures CommercialSource(sub, t) == CommercialSource(sub, now)
    ensures ActiveGrants(grants, t) == ActiveGrants(grants, now)
    ensures Candidates(sub, grants, t) == Candidates(sub, grants, now)
    ensures InvalidatedBy(sub, t) <==> InvalidatedBy(sub, now)
  {
    hide ActiveGrants, Ends, FutureStarts, SubscriptionCandidates, CommercialSource, NothingDue;
    NothingDueIn(SubscriptionCandidates(sub, now), Candidates(sub, grants, now), t);
    NothingDueIn(Ends(ActiveGrants(grants, now), now), Candidates(sub, grants, now), t);
    NothingDueIn(FutureStarts(grants, now), Candidates(sub, grants, now), t);
    SteadyCommercial(sub, now, t);
    SteadyGrants(grants, now, t);
    SameState(sub, now, t);
  }

  /** Nothing in the result changes before the announced instant, nor ever when none is announced. */
  lemma SteadyUntilRecalculation(sub: Subscription, grants: seq<Grant>, catalog: Catalog, now: int, t: int)
    requires ValidCatalog(catalog) && ProperGrants(grants) && now <= t
    requires var next := NextRecalculation(sub, grants, now); next.Some? ==> t < next.value
    ensures AccessAt(sub, grants, catalog, t) == AccessAt(sub, grants, catalog, now)
  {
    hide Candidates, Least, ActiveGrants, CommercialSource, ValidCatalog, AccessAt;
    LeastIsMinimum(Candidates(sub, grants, now));
    SteadyCandidates(sub, grants, now, t);
    SameAccess(sub, grants, catalog, now, t);
  }

  lemma SameState(sub: Subscription, now: int, t: int)
    requires now <= t && NothingDue(SubscriptionCandidates(sub, now), t)
    ensures InvalidatedBy(sub, t) <==> InvalidatedBy(sub, now)
  {
    if sub.accessInvalidatedAt.Some? && sub.accessInvalidatedAt.value > now {
      assert sub.accessInvalidatedAt.value in SubscriptionCandidates(sub, now);
    }
  }

  /** The same for the public entry point: errors are as constant as results. */
  lemma ResultSteadyUntilRecalculation(raw: RawSubscription, grants: seq<RawGrant>, catalog: Catalog, now: int, t: int)
    requires now <= t
    requires var r := ResolveBillingAccess(raw, grants, now, catalog);
             r.Ok? && r.value.nextRecalculationAt.Some? ==> t < r.value.nextRecalculationAt.value
    ensures ResolveBillingAccess(raw, grants, t, catalog) == ResolveBillingAccess(raw, grants, now, catalog)
  {
    var r := ResolveBillingAccess(raw, grants, now, catalog);
    if r.Ok? {
      SteadyUntilRecalculation(NormalizeSubscription(raw, catalog).value, NormalizeGrants(grants, catalog).value,
                               catalog, now, t);
    }
  }

  // Following the announced instants.

  ghost function Known(time: Option<int>): set<int> {
    if time.Some? then {time.value} else {}
  }

  ghost function GrantInstants(grants: seq<Grant>): set<int> {
    if grants == [] then {}
    else {grants[0].startsAt, grants[0].expiresAt} + Known(grants[0].revokedAt) + GrantInstants(grants[1..])
  }

  /** Every timestamp of the input that can matter. */
  ghost function Instants(sub: Subscription, grants: seq<Grant>): set<int> {
    Known(sub.paidThrough) + Known(sub.graceUntil) + Known(sub.accessInvalidatedAt) + Known(sub.pastDueAt)
    + GrantInstants(grants)
  }

  ghost function After(instants: set<int>, now: int): set<int> {
    set x | x in instants && x > now
  }

  lemma {:induction false} GrantCandidatesAreInstants(grants: seq<Grant>, now: int)
    ensures forall c <- Ends(ActiveGrants(grants, now), now) + FutureStarts(grants, now) ::
              c > now && c in GrantInstants(grants)
  {
    if grants != [] {
      GrantCandidatesAreInstants(grants[1..], now);
      var rest := ActiveGrants(grants[1..], now);
      var active := ActiveGrant(grants[0], now);
      if active.Some? {
        assert ActiveGrants(grants, now)[1..] == rest;
        assert active.value.validUntil in GrantInstants(grants);
      } else {
        assert ActiveGrants(grants, now) == rest;
      }
      var ends, starts := Ends(rest, now), FutureStarts(grants[1..], now);
      assert forall c :: c in ends || c in starts ==> c in ends + starts;
    }
  }

  /** The announced instant is one of the input's timestamps and lies ahead. */
  lemma NextIsAhead(sub: Subscription, grants: seq<Grant>, now: int)
    requires NextRecalculation(sub, grants, now).Some?
    ensures NextRecalculation(sub, grants, now).value in After(Instants(sub, grants), now)
  {
    var xs := Candidates(sub, grants, now);
    LeastIsMinimum(xs);
    GrantCandidatesAreInstants(grants, now);
    var next := Least(xs).value;
    if next in SubscriptionCandidates(sub, now) {
    } else {
      assert next in Ends(ActiveGrants(grants, now), now) + FutureStarts(grants, now);
    }
  }

  lemma FewerAhead(instants: set<int>, now: int, next: int)
    requires next in After(instants, now)
    ensures |After(instants, next)| < |After(instants, now)|
  {
    assert After(instants, next) <= After(instants, now) - {next};
    SubsetIsSmaller(After(instants, next), After(instants, now) - {next});
  }

  /** The instants at which a caller that only follows the announcements wakes up. */
  ghost function WakePoints(sub: Subscription, grants: seq<Grant>, now: int): seq<int>
    decreases |After(Instants(sub, grants), now)|
  {
    var next := NextRecalculation(sub, grants, now);
    if next.None? then []
    else
      NextIsAhead(sub, grants, now);
      FewerAhead(Instants(sub, grants), now, next.value);
      [next.value] + WakePoints(sub, grants, next.value)
  }

  /** Wake points strictly increase and are no more than the input timestamps still ahead. */
  lemma {:induction false} WakePointsAreBounded(sub: Subscription, grants: seq<Grant>, now: int)
    ensures var wakes := WakePoints(sub, grants, now);
            && |wakes| <= |After(Instants(sub, grants), now)|
            && (forall w <- wakes :: now < w && w in Instants(sub, grants))
            && forall i, j :: 0 <= i < j < |wakes| ==> wakes[i] < wakes[j]
    decreases |After(Instants(sub, grants), now)|
  {
    hide NextRecalculation, Instants;
    var next := NextRecalculation(sub, grants, now);
    if next.Some? {
      NextIsAhead(sub, grants, now);
      FewerAhead(Instants(sub, grants), now, next.value);
      WakePointsAreBounded(sub, grants, next.value);
      var rest := WakePoints(sub, grants, next.value);
      assert forall j :: 0 <= j < |rest| ==> rest[j] in rest;
    }
  }

  lemma {:induction false} InstantsAreFew(grants: seq<Grant>)
    ensures |GrantInstants(grants)| <= 3 * |grants|
  {
    if grants != [] {
      InstantsAreFew(grants[1..]);
      var g := grants[0];
      UnionSize({g.startsAt, g.expiresAt}, Known(g.revokedAt));
      UnionSize({g.startsAt, g.expiresAt} + Known(g.revokedAt), GrantInstants(grants[1..]));
    }
  }

  lemma UnionSize<T>(a: set<T>, b: set<T>)
    ensures |a + b| <= |a| + |b|
  {
    assert a + b == a + (b - a);
    SubsetIsSmaller(b - a, b);
  }

  /** A schedule has at most four instants for the subscription and three for each grant. */
  lemma WakeCount(sub: Subscription, grants: seq<Grant>, now: int)
    ensures |WakePoints(sub, grants, now)| <= 4 + 3 * |grants|
  {
    WakePointsAreBounded(sub, grants, now);
    InstantsAreFew(grants);
    var a, b := Known(sub.paidThrough), Known(sub.graceUntil);
    var c, d := Known(sub.accessInvalidatedAt), Known(sub.pastDueAt);
    UnionSize(a, b);
    UnionSize(a + b, c);
    UnionSize(a + b + c, d);
    UnionSize(a + b + c + d, GrantInstants(grants));
    SubsetIsSmaller(After(Instants(sub, grants), now), Instants(sub, grants));
  }

  /** What a caller believes at t when it resolved at `now` and then only at the announced instants. */
  ghost function Believed(sub: Subscription, grants: seq<Grant>, catalog: Catalog, now: int, t: int): Access
    requires ValidCatalog(catalog) && now <= t
    decreases |After(Instants(sub, grants), now)|
  {
    var next := NextRecalculation(sub, grants, now);
    if next.None? || t < next.value then AccessAt(sub, grants, catalog, now)
    else
      NextIsAhead(sub, grants, now);
      FewerAhead(Instants(sub, grants), now, next.value);
      Believed(sub, grants, catalog, next.value, t)
  }

  /** Waking only at the announced instants reproduces access exactly, at every later instant. */
  lemma {:induction false} WakingReproducesAccess(sub: Subscription, grants: seq<Grant>, catalog: Catalog, now: int,
                                                  t: int)
    requires ValidCatalog(catalog) && ProperGrants(grants) && now <= t
    ensures Believed(sub, grants, catalog, now, t) == AccessAt(sub, grants, catalog, t)
    decreases |After(Instants(sub, grants), now)|
  {
    var next := NextRecalculation(sub, grants, now);
    if next.None? || t < next.value {
      SteadyUntilRecalculation(sub, grants, catalog, now, t);
    } else {
      NextIsAhead(sub, grants, now);
      FewerAhead(Instants(sub, grants), now, next.value);
      WakingReproducesAccess(sub, grants, catalog, next.value, t);
    }
  }

  /** Once a grant has expired or been revoked it never contributes again, and neither does an invalidated
      subscription. */
  lemma EndedAccessNeverReturns(sub: Subscription, g: Grant, now: int, t: int)
    requires now <= t && g.startsAt <= now
    ensures ActiveGrant(g, now).None? ==> ActiveGrant(g, t).None?
    ensures sub.accessInvalidatedAt.Some? && sub.accessInvalidatedAt.value <= now ==> CommercialSource(sub, t).None?
  {
  }

  // Who has access to what, in the fields of the input.

  /** The stored plan is one to pay for, and nothing has invalidated it by now. */
  ghost predicate InForce(sub: Subscription, now: int) {
    && sub.planId.Some? && sub.planId.value != FREE
    && (sub.accessInvalidatedAt.Some? ==> now < sub.accessInvalidatedAt.value)
  }

  /** Paid coverage gives its plan until it ends, and grace gives it only where paid coverage does not; the end that is
      reported is the first instant from which this no longer holds. */
  lemma CommercialExactly(sub: Subscription, now: int)
    ensures var s := CommercialSource(sub, now);
            var paid := sub.paidThrough.Some? && now < sub.paidThrough.value;
            var grace := && sub.pastDueAt.Some? && sub.pastDueAt.value <= now
                         && sub.graceUntil.Some? && now < sub.graceUntil.value;
            && (s.Some? <==> InForce(sub, now) && (paid || grace))
            && (s.Some? ==> && s.value.Commercial? && s.value.planId == sub.planId.value
                            && s.value.mode == (if paid then Paid else Grace) && now < s.value.validUntil
                            && (forall t | now <= t < s.value.validUntil :: CommercialSource(sub, t) == s)
                            && CommercialSource(sub, s.value.validUntil) != s)
  {
  }

  /** A grant gives its plan from its start until it expires or is revoked, whichever comes first. */
  lemma GrantExactly(g: Grant, now: int)
    ensures var s := ActiveGrant(g, now);
            var end := if g.revokedAt.Some? && g.revokedAt.value < g.expiresAt then g.revokedAt.value else g.expiresAt;
            && (s.Some? <==> g.startsAt <= now < end)
            && (s.Some? ==> s.value == Granted(g.id, g.planId, g.source, g.sourceKey, end))
  {
  }

  ghost predicate By(time: RawTime, now: int) {
    time.Instant? && time.ms <= now
  }

  ghost predicate Ahead(time: RawTime, now: int) {
    time.Instant? && now < time.ms
  }

  ghost predicate PaidPlan(raw: RawSubscription, catalog: Catalog) {
    raw.planId in catalog && raw.planId != FREE
  }

  ghost predicate PaidAt(raw: RawSubscription, catalog: Catalog, now: int) {
    PaidPlan(raw, catalog) && !By(raw.accessInvalidatedAt, now) && Ahead(raw.paidThrough, now)
  }

  ghost predicate GraceAt(raw: RawSubscription, catalog: Catalog, now: int) {
    && PaidPlan(raw, catalog) && !By(raw.accessInvalidatedAt, now) && !Ahead(raw.paidThrough, now)
    && By(raw.pastDueAt, now) && Ahead(raw.graceUntil, now)
  }

  ghost predicate GrantedAt(g: RawGrant, catalog: Catalog, now: int) {
    g.planId in catalog && By(g.startsAt, now) && Ahead(g.expiresAt, now) && !By(g.revokedAt, now)
  }

  ghost predicate LegibleGrant(g: RawGrant, catalog: Catalog) {
    g.planId in catalog ==> !g.startsAt.Malformed? && !g.expiresAt.Malformed? && !g.revokedAt.Malformed?
  }

  /** No timestamp is malformed, save those of grants whose plan nobody knows. */
  ghost predicate Legible(raw: RawSubscription, grants: seq<RawGrant>, catalog: Catalog) {
    && !raw.paidThrough.Malformed? && !raw.pastDueAt.Malformed? && !raw.graceUntil.Malformed?
    && !raw.accessInvalidatedAt.Malformed? && !raw.currentPeriodEnd.Malformed? && !raw.endedAt.Malformed?
    && !raw.nextPlanEffectiveAt.Malformed? && forall g <- grants :: LegibleGrant(g, catalog)
  }

  /** One source for each grant that holds now, in the order of the grants. */
  ghost function Holding(grants: seq<RawGrant>, catalog: Catalog, now: int): seq<Source> {
    if grants == [] then []
    else
      var g := grants[0];
      (if GrantedAt(g, catalog, now)
       then [Granted(g.id, g.planId, g.source, g.sourceKey,
                     if g.revokedAt.Instant? && g.revokedAt.ms < g.expiresAt.ms then g.revokedAt.ms
                     else g.expiresAt.ms)]
       else []) + Holding(grants[1..], catalog, now)
  }

  lemma {:induction false} GrantsAreLegible(grants: seq<RawGrant>, catalog: Catalog)
    ensures NormalizeGrants(grants, catalog).Ok? <==> forall g <- grants :: LegibleGrant(g, catalog)
  {
    if grants != [] {
      hide LegibleGrant;
      GrantsAreLegible(grants[1..], catalog);
      FirstGrantIsLegible(grants, catalog);
      assert forall g :: g in grants <==> g == grants[0] || g in grants[1..];
    }
  }

  lemma FirstGrantIsLegible(grants: seq<RawGrant>, catalog: Catalog)
    requires grants != []
    ensures NormalizeGrants(grants, catalog).Ok?
            <==> LegibleGrant(grants[0], catalog) && NormalizeGrants(grants[1..], catalog).Ok?
  {
    var g := grants[0];
    assert Malformed in [g.startsAt, g.expiresAt, g.revokedAt]
           <==> g.startsAt.Malformed? || g.expiresAt.Malformed? || g.revokedAt.Malformed?;
  }

  lemma {:induction false} GrantsHold(grants: seq<RawGrant>, catalog: Catalog, now: int)
    requires NormalizeGrants(grants, catalog).Ok?
    ensures ActiveGrants(NormalizeGrants(grants, catalog).value, now) == Holding(grants, catalog, now)
  {
    if grants != [] {
      hide Holding, GrantedAt, ActiveGrants;
      GrantsHold(grants[1..], catalog, now);
      FirstGrantHolds(grants, catalog, now);
    } else {
      assert ActiveGrants([], now) == [];
    }
  }

  /** The grant has a known plan and proper dates. */
  ghost predicate Dated(g: RawGrant, catalog: Catalog) {
    && g.planId in catalog && g.startsAt.Instant? && g.expiresAt.Instant? && g.startsAt.ms < g.expiresAt.ms
    && !g.revokedAt.Malformed?
  }

  ghost function AsGrant(g: RawGrant): Grant
    requires g.startsAt.Instant? && g.expiresAt.Instant?
  {
    Grant(g.id, g.planId, g.source, g.sourceKey, g.startsAt.ms, g.expiresAt.ms, Time(g.revokedAt))
  }

  lemma FirstGrantIsDated(grants: seq<RawGrant>, catalog: Catalog)
    requires grants != [] && LegibleGrant(grants[0], catalog) && NormalizeGrants(grants[1..], catalog).Ok?
    ensures NormalizeGrants(grants, catalog)
            == if Dated(grants[0], catalog)
               then Ok([AsGrant(grants[0])] + NormalizeGrants(grants[1..], catalog).value)
               else NormalizeGrants(grants[1..], catalog)
  {
    var g := grants[0];
    assert Malformed in [g.startsAt, g.expiresAt, g.revokedAt]
           <==> g.startsAt.Malformed? || g.expiresAt.Malformed? || g.revokedAt.Malformed?;
  }

  lemma OneGrantHolds(g: RawGrant, catalog: Catalog, now: int)
    requires LegibleGrant(g, catalog)
    ensures GrantedAt(g, catalog, now) ==> Dated(g, catalog)
    ensures Dated(g, catalog) ==>
              ActiveGrant(AsGrant(g), now)
              == if GrantedAt(g, catalog, now)
                 then Some(Granted(g.id, g.planId, g.source, g.sourceKey,
                                   if g.revokedAt.Instant? && g.revokedAt.ms < g.expiresAt.ms then g.revokedAt.ms
                                   else g.expiresAt.ms))
                 else None
  {
  }

  lemma ActiveNext(first: Grant, rest: seq<Grant>, now: int)
    ensures ActiveGrants([first] + rest, now)
            == (if ActiveGrant(first, now).Some? then [ActiveGrant(first, now).value] else [])
               + ActiveGrants(rest, now)
  {
    hide ActiveGrant;
    assert ([first] + rest)[1..] == rest;
  }

  lemma FirstGrantHolds(grants: seq<RawGrant>, catalog: Catalog, now: int)
    requires grants != [] && NormalizeGrants(grants, catalog).Ok? && NormalizeGrants(grants[1..], catalog).Ok?
    requires ActiveGrants(NormalizeGrants(grants[1..], catalog).value, now) == Holding(grants[1..], catalog, now)
    ensures ActiveGrants(NormalizeGrants(grants, catalog).value, now) == Holding(grants, catalog, now)
  {
    hide LegibleGrant, GrantedAt, ActiveGrant, NormalizeGrants, ActiveGrants;
    FirstGrantIsLegible(grants, catalog);
    FirstGrantIsDated(grants, catalog);
    OneGrantHolds(grants[0], catalog, now);
    if Dated(grants[0], catalog) {
      ActiveNext(AsGrant(grants[0]), NormalizeGrants(grants[1..], catalog).value, now);
    } else {
      assert [] + Holding(grants[1..], catalog, now) == Holding(grants[1..], catalog, now);
    }
  }

  ghost predicate SourceOf(sources: seq<Source>, plan: string) {
    exists s <- sources :: s.PlanId() == plan
  }

  ghost predicate GrantOf(grants: seq<RawGrant>, catalog: Catalog, now: int, plan: string) {
    exists g <- grants :: GrantedAt(g, catalog, now) && g.planId == plan
  }

  lemma SourceOfBoth(a: seq<Source>, b: seq<Source>, plan: string)
    ensures SourceOf(a + b, plan) <==> SourceOf(a, plan) || SourceOf(b, plan)
  {
    if SourceOf(a, plan) {
      var s :| s in a && s.PlanId() == plan;
      assert s in a + b;
    }
    if SourceOf(b, plan) {
      var s :| s in b && s.PlanId() == plan;
      assert s in a + b;
    }
  }

  lemma {:induction false} HoldingPlans(grants: seq<RawGrant>, catalog: Catalog, now: int, plan: string)
    ensures SourceOf(Holding(grants, catalog, now), plan) <==> GrantOf(grants, catalog, now, plan)
  {
    if grants != [] {
      hide GrantedAt, SourceOf;
      var rest := Holding(grants[1..], catalog, now);
      var first := Holding(grants, catalog, now)[..|Holding(grants, catalog, now)| - |rest|];
      HoldingPlans(grants[1..], catalog, now, plan);
      assert Holding(grants, catalog, now) == first + rest;
      SourceOfBoth(first, rest, plan);
      FirstPlan(grants[0], first, catalog, now, plan);
      assert forall g :: g in grants <==> g == grants[0] || g in grants[1..];
    }
  }

  lemma FirstPlan(g: RawGrant, first: seq<Source>, catalog: Catalog, now: int, plan: string)
    requires if GrantedAt(g, catalog, now) then |first| == 1 && first[0].PlanId() == g.planId else first == []
    ensures SourceOf(first, plan) <==> GrantedAt(g, catalog, now) && g.planId == plan
  {
    if first != [] {
      assert first[0] in first;
    }
  }

  /** The plans a user is entitled to besides Free. */
  ghost predicate Entitled(raw: RawSubscription, grants: seq<RawGrant>, catalog: Catalog, now: int, plan: string) {
    || (plan == raw.planId && (PaidAt(raw, catalog, now) || GraceAt(raw, catalog, now)))
    || GrantOf(grants, catalog, now, plan)
  }

  lemma EntitledAreSources(raw: RawSubscription, grants: seq<RawGrant>, catalog: Catalog, now: int, plan: string)
    requires ValidCatalog(catalog) && Legible(raw, grants, catalog)
    ensures NormalizeSubscription(raw, catalog).Ok? && NormalizeGrants(grants, catalog).Ok?
    ensures var a := AccessAt(NormalizeSubscription(raw, catalog).value, NormalizeGrants(grants, catalog).value,
                              catalog, now);
            SourceOf(a.sources, plan) <==> plan == FREE || Entitled(raw, grants, catalog, now, plan)
  {
    hide ValidCatalog, Effective, Holding, GrantOf, ActiveGrants, NextRecalculation, SourceOf, NormalizeGrants;
    GrantsAreLegible(grants, catalog);
    GrantsHold(grants, catalog, now);
    HoldingPlans(grants, catalog, now, plan);
    var commercial := CommercialSource(NormalizeSubscription(raw, catalog).value, now);
    var own := if commercial.Some? then [commercial.value] else [];
    SourceOfBoth([Baseline] + own, Holding(grants, catalog, now), plan);
    SourceOfBoth([Baseline], own, plan);
    OnePlan(Baseline, plan);
    if commercial.Some? {
      OnePlan(commercial.value, plan);
    } else {
      NoPlanOf(plan);
    }
  }

  lemma EntitledIsKnown(raw: RawSubscription, grants: seq<RawGrant>, catalog: Catalog, now: int, plan: string)
    ensures Entitled(raw, grants, catalog, now, plan) ==> plan in catalog
  {
  }

  lemma CatalogKnowsItself(catalog: Catalog, id: string)
    requires ValidCatalog(catalog) && id in catalog
    ensures catalog[id].id == id
  {
  }

  lemma OnePlan(s: Source, plan: string)
    ensures SourceOf([s], plan) <==> s.PlanId() == plan
  {
    assert s in [s];
  }

  lemma NoPlanOf(plan: string)
    ensures !SourceOf([], plan)
  {
  }

  lemma {:induction false} KnownPlansRank(sources: seq<Source>, catalog: Catalog, plan: string)
    requires ValidCatalog(catalog)
    ensures var id := Effective(sources, catalog);
            && (SourceOf(sources, plan) && plan in catalog ==> catalog[plan].rank <= catalog[id].rank)
            && (id == FREE || SourceOf(sources, id))
  {
    hide Effective, ValidCatalog;
    EffectiveIsHighest(sources, catalog);
  }

  lemma ValidExactly(catalog: Catalog)
    ensures ValidCatalog(catalog) <==>
              && FREE in catalog && catalog[FREE].rank == 0
              && (forall id <- catalog :: catalog[id].id == id && 0 <= catalog[id].rank)
              && forall a, b | a in catalog && b in catalog && catalog[a].rank == catalog[b].rank :: a == b
  {
  }

  /** The public answer: it is an error exactly for an invalid catalog or an illegible timestamp; otherwise paid
      coverage, grace and active grants are what entitles, the reported state says which of them the subscription
      gives, and the effective plan is the highest-ranked among Free and the entitled ones. */
  lemma ResolvesExactly(raw: RawSubscription, grants: seq<RawGrant>, catalog: Catalog, now: int, plan: string)
    ensures var r := ResolveBillingAccess(raw, grants, now, catalog);
            && (r.Ok? <==> FREE in catalog && catalog[FREE].rank == 0
                           && (forall id <- catalog :: catalog[id].id == id && 0 <= catalog[id].rank)
                           && (forall a, b | a in catalog && b in catalog && catalog[a].rank == catalog[b].rank ::
                                 a == b)
                           && Legible(raw, grants, catalog))
            && (r.Ok? ==>
                  var a, paid, grace := r.value, PaidAt(raw, catalog, now), GraceAt(raw, catalog, now);
                  && a.commercialState == (if By(raw.accessInvalidatedAt, now) then Invalidated
                                           else if paid then PaidAccess else if grace then GraceAccess
                                           else if PaidPlan(raw, catalog) then Unverified else NoPlan)
                  && a.commercialPlanId == (if raw.planId in catalog then raw.planId else FREE)
                  && a.commercialAccessPlanId == (if paid || grace then Some(raw.planId) else None)
                  && (Entitled(raw, grants, catalog, now, plan) ==>
                        plan in catalog && catalog[plan].rank <= a.effectivePlan.rank)
                  && (a.effectivePlan == catalog[FREE]
                      || (a.effectivePlan.id in catalog && a.effectivePlan == catalog[a.effectivePlan.id]
                          && Entitled(raw, grants, catalog, now, a.effectivePlan.id))))
  {
    hide ValidCatalog, Effective, NormalizeGrants, GrantedAt, ActiveGrants, NextRecalculation, SourceOf;
    GrantsAreLegible(grants, catalog);
    ValidExactly(catalog);
    if ResolveBillingAccess(raw, grants, now, catalog).Ok? {
      var sub, held := NormalizeSubscription(raw, catalog).value, NormalizeGrants(grants, catalog).value;
      var sources := AccessAt(sub, held, catalog, now).sources;
      KnownPlansRank(sources, catalog, plan);
      EntitledIsKnown(raw, grants, catalog, now, plan);
      CatalogKnowsItself(catalog, Effective(sources, catalog));
      EntitledAreSources(raw, grants, catalog, now, plan);
      EntitledAreSources(raw, grants, catalog, now, Effective(sources, catalog));
    }
  }

  // The loops of the source.

  method ValidateCatalog(catalog: Catalog) returns (ok: bool)
    ensures ok <==> ValidCatalog(catalog)
    ensures ok <==> && FREE in catalog && catalog[FREE].rank == 0
                    && (forall id <- catalog :: catalog[id].id == id && 0 <= catalog[id].rank)
                    && forall a, b | a in catalog && b in catalog && catalog[a].rank == catalog[b].rank :: a == b
  {
    if FREE !in catalog || catalog[FREE].id != FREE || catalog[FREE].rank != 0 {
      return false;
    }
    var todo, ranks := catalog.Keys, {};
    while todo != {}
      invariant todo <= catalog.Keys
      invariant ranks == set id | id in catalog.Keys - todo :: catalog[id].rank
      invariant forall id <- catalog.Keys - todo :: catalog[id].id == id && catalog[id].rank >= 0
      invariant forall a, b | a in catalog.Keys - todo && b in catalog.Keys - todo
                              && a != b :: catalog[a].rank != catalog[b].rank
      decreases todo
    {
      var id :| id in todo;
      var plan := catalog[id];
      if plan.id != id || plan.rank < 0 || plan.rank in ranks {
        return false;
      }
      ranks := ranks + {plan.rank};
      todo := todo - {id};
    }
    return true;
  }

  method ChooseEffectivePlan(sources: seq<Source>, catalog: Catalog) returns (plan: Plan)
    requires ValidCatalog(catalog)
    ensures plan == catalog[Effective(sources, catalog)]
    ensures forall s <- sources :: SourceRank(s, catalog) <= plan.rank
  {
    var effectivePlanId := FREE;
    for i := 0 to |sources|
      invariant effectivePlanId == Effective(sources[..i], catalog)
    {
      assert sources[..i + 1][..i] == sources[..i];
      if SourceRank(sources[i], catalog) > catalog[effectivePlanId].rank {
        effectivePlanId := sources[i].PlanId();
      }
    }
    assert sources[..|sources|] == sources;
    EffectiveIsHighest(sources, catalog);
    plan := catalog[effectivePlanId];
  }

  method NextRecalculationAt(sub: Subscription, grants: seq<Grant>, commercial: Option<Source>, active: seq<Source>,
                             now: int)
    returns (next: Option<int>)
    requires commercial == CommercialSource(sub, now) && active == ActiveGrants(grants, now)
    ensures next == NextRecalculation(sub, grants, now)
  {
    hide SubscriptionCandidates, ActiveGrants, CommercialSource, Least;
    var candidates := SubscriptionCandidates(sub, now);
    ghost var first := candidates;
    for i := 0 to |active|
      invariant candidates + Ends(active[i..], now) == first + Ends(active, now)
    {
      assert active[i..][1..] == active[i + 1..];
      if !active[i].Baseline? && active[i].validUntil > now {
        candidates := candidates + [active[i].validUntil];
      }
    }
    assert active[|active|..] == [] && candidates == first + Ends(active, now);
    ghost var second := candidates;
    for i := 0 to |grants|
      invariant candidates + FutureStarts(grants[i..], now) == second + FutureStarts(grants, now)
    {
      assert grants[i..][1..] == grants[i + 1..];
      if grants[i].startsAt > now && grants[i].expiresAt > grants[i].startsAt {
        candidates := candidates + [grants[i].startsAt];
      }
    }
    assert grants[|grants|..] == [] && candidates == second + FutureStarts(grants, now);
    assert candidates == Candidates(sub, grants, now);
    next := LeastOf(candidates);
  }

  method LeastOf(candidates: seq<int>) returns (next: Option<int>)
    ensures next == Least(candidates)
  {
    LeastIsMinimum(candidates);
    if candidates == [] {
      return None;
    }
    var least := candidates[0];
    for i := 1 to |candidates|
      invariant least in candidates && forall j :: 0 <= j < i ==> least <= candidates[j]
    {
      least := Min(least, candidates[i]);
    }
    return Some(least);
  }
}
