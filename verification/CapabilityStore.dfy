/** One-use capabilities for direct operations, kept in memory under a cap per tenant. */
module CapabilityStore {
  import opened Wrappers

  type Hash = string
  type Time = nat

  datatype Identity = Identity(user: string, tenant: string, installation: string, authSession: string, session: string,
                               generation: int)

  datatype Scope = Scope(objectType: string, objectIds: set<string>)

  datatype Status = Active | Authorized | Consumed | Revoked | Expired

  datatype Record = Record(identity: Identity, operationId: string, kind: string, scope: Scope, status: Status,
                           expiresAt: Time)

  type Records = map<Hash, Record>

  datatype Revocation =
    | MissingOperations(tenant: string, installation: string, session: string, live: set<string>)
    | OfSession(installation: string, session: string)
    | OfAuthSession(authSession: string, onInstallation: Option<string>)
    | OfTenant(tenant: string)

  datatype Step =
    | Issue(hash: Hash, record: Record, now: Time)
    | Authorize(hash: Hash, who: Identity, kind: string, scope: Scope, skew: nat, now: Time)
    | Renew(hash: Hash, who: Identity, leaseMs: nat, skew: nat, now: Time)
    | Finish(hash: Hash, who: Identity, skew: nat, now: Time)
    | Revoke(revocation: Revocation, now: Time)

  datatype Reply =
    | Issued | CapReached | Unknown | ScopeDenied | Closed(status: Status) | Granted | Renewed | Abandoned
    | Done(replay: bool)

  const DEFAULT_CAPABILITY_TTL_MS := 10 * 60 * 1000

  /** The lease asked for (0: none), kept between 30 seconds and 30 minutes. */
  function RenewalLease(leaseMs: nat): nat {
    Max(30000, Min(30 * 60 * 1000, if leaseMs == 0 then DEFAULT_CAPABILITY_TTL_MS else leaseMs))
  }

  predicate IsLive(record: Record) {
    record.status == Active || record.status == Authorized
  }

  function LiveOf(records: Records, tenant: string): set<Hash> {
    set h | h in records && IsLive(records[h]) && records[h].identity.tenant == tenant
  }

  function ExpireAll(records: Records, now: Time): Records {
    map h | h in records ::
      if IsLive(records[h]) && records[h].expiresAt < now then records[h].(status := Expired) else records[h]
  }

  predicate Matches(record: Record, r: Revocation) {
    match r
    case MissingOperations(tenant, installation, session, live) =>
      && record.identity.tenant == tenant && record.identity.installation == installation
         && record.identity.session == session
      && record.operationId !in live
    case OfSession(installation, session) => record.identity.installation == installation
                                             && record.identity.session == session
    case OfAuthSession(authSession, onInstallation) =>
      record.identity.authSession == authSession && (onInstallation.Some? ==>
                                                       record.identity.installation == onInstallation.value)
    case OfTenant(tenant) => record.identity.tenant == tenant
  }

  function RevokeAll(records: Records, r: Revocation): Records {
    map h | h in records :: if IsLive(records[h]) && Matches(records[h], r) then records[h].(status := Revoked)
                            else records[h]
  }

  predicate Late(record: Record, skew: nat, now: Time) {
    record.expiresAt + skew < now
  }

  function Apply(records: Records, s: Step, cap: nat): (Records, Reply) {
    match s
    case Issue(hash, record, now) =>
      var swept := ExpireAll(records, now);
      if |LiveOf(swept, record.identity.tenant)| >= cap then (swept, CapReached)
      else (swept[hash := record.(status := Active)], Issued)
    case Authorize(hash, who, kind, scope, skew, now) =>
      if hash !in records then (records, Unknown)
      else
        var record := records[hash];
        if record.identity != who || record.kind != kind || record.scope != scope then (records, ScopeDenied)
        else if record.status != Active then (records, Closed(record.status))
        else if Late(record, skew, now) then (records[hash := record.(status := Expired)], Closed(Expired))
        else (records[hash := record.(status := Authorized)], Granted)
    case Renew(hash, who, leaseMs, skew, now) =>
      if hash !in records then (records, Unknown)
      else
        var record := records[hash];
        if record.identity != who then (records, ScopeDenied)
        else if record.status != Authorized then (records, Closed(record.status))
        else if Late(record, skew, now) then (records[hash := record.(status := Expired)], Closed(Expired))
        else (records[hash := record.(expiresAt := Max(record.expiresAt, now + RenewalLease(leaseMs)))], Renewed)
    case Finish(hash, who, skew, now) =>
      if hash !in records then (records, Unknown)
      else
        var record := records[hash];
        if record.identity != who then (records, ScopeDenied)
        else if record.status == Active then (records[hash := record.(status := Revoked)], Abandoned)
        else if record.status == Consumed then (records, Done(true))
        else if record.status != Authorized then (records, Closed(record.status))
        else if Late(record, skew, now) then (records[hash := record.(status := Expired)], Closed(Expired))
        else (records[hash := record.(status := Consumed)], Done(false))
    case Revoke(revocation, _) => (RevokeAll(records, revocation), Done(false))
  }

  function LiveMatching(records: Records, r: Revocation): set<Hash> {
    set h | h in records && IsLive(records[h]) && Matches(records[h], r)
  }

  function Run(records: Records, steps: seq<Step>, cap: nat): Records {
    if steps == [] then records else Apply(Run(records, steps[..|steps| - 1], cap), steps[|steps| - 1], cap).0
  }

  // The tenant cap.

  ghost predicate WithinCap(records: Records, cap: nat) {
    forall tenant :: |LiveOf(records, tenant)| <= cap
  }

  lemma StepKeepsLive(records: Records, s: Step, cap: nat, tenant: string)
    requires !s.Issue?
    ensures LiveOf(Apply(records, s, cap).0, tenant) <= LiveOf(records, tenant)
  {
    hide Matches, Late, RenewalLease;
  }

  lemma IssueKeepsLive(records: Records, s: Step, cap: nat, tenant: string)
    requires s.Issue?
    ensures var live := LiveOf(Apply(records, s, cap).0, tenant);
            live <= LiveOf(records, tenant)
            || (tenant == s.record.identity.tenant && |LiveOf(ExpireAll(records, s.now), tenant)| < cap
                && live <= LiveOf(ExpireAll(records, s.now), tenant) + {s.hash})
  {
  }

  /** No run, whatever it issues, renews, finishes or revokes, leaves a tenant more live capabilities than the cap. */
  lemma {:induction false} TenantsStayWithinCap(steps: seq<Step>, cap: nat)
    ensures WithinCap(Run(map[], steps, cap), cap)
  {
    if steps != [] {
      hide Apply, LiveOf, ExpireAll;
      TenantsStayWithinCap(steps[..|steps| - 1], cap);
      var before, s := Run(map[], steps[..|steps| - 1], cap), steps[|steps| - 1];
      forall tenant ensures |LiveOf(Run(map[], steps, cap), tenant)| <= cap {
        StepStaysWithinCap(before, s, cap, tenant);
      }
    } else {
      forall tenant ensures |LiveOf(map[], tenant)| <= cap {
        assert LiveOf(map[], tenant) == {};
      }
    }
  }

  lemma StepStaysWithinCap(records: Records, s: Step, cap: nat, tenant: string)
    requires |LiveOf(records, tenant)| <= cap
    ensures |LiveOf(Apply(records, s, cap).0, tenant)| <= cap
  {
    hide Apply, LiveOf, ExpireAll;
    var live := LiveOf(Apply(records, s, cap).0, tenant);
    if s.Issue? {
      IssueKeepsLive(records, s, cap, tenant);
      if live <= LiveOf(records, tenant) {
        SubsetIsSmaller(live, LiveOf(records, tenant));
      } else {
        SubsetIsSmaller(live, LiveOf(ExpireAll(records, s.now), tenant) + {s.hash});
      }
    } else {
      StepKeepsLive(records, s, cap, tenant);
      SubsetIsSmaller(live, LiveOf(records, tenant));
    }
  }

  // One use.

  function One(b: bool): nat {
    if b then 1 else 0
  }

  /** How often the capability was issued, authorized and consumed along a run; replayed finishes are not counted. */
  datatype Uses = Uses(issued: nat, authorized: nat, consumed: nat)

  function UsesOf(records: Records, steps: seq<Step>, cap: nat, hash: Hash): Uses {
    if steps == [] then Uses(0, 0, 0)
    else
      var before, s := UsesOf(records, steps[..|steps| - 1], cap, hash), steps[|steps| - 1];
      var reply := Apply(Run(records, steps[..|steps| - 1], cap), s, cap).1;
      Uses(before.issued + One(s.Issue? && s.hash == hash && reply == Issued),
           before.authorized + One(s.Authorize? && s.hash == hash && reply == Granted),
           before.consumed + One(s.Finish? && s.hash == hash && reply == Done(false)))
  }

  predicate Is(records: Records, hash: Hash, status: Status) {
    hash in records && records[hash].status == status
  }

  lemma StepUses(records: Records, s: Step, cap: nat, hash: Hash)
    ensures var (after, reply) := Apply(records, s, cap);
            && One(Is(after, hash, Active)) + One(s.Authorize? && s.hash == hash && reply == Granted)
               <= One(Is(records, hash, Active)) + One(s.Issue? && s.hash == hash && reply == Issued)
            && One(Is(after, hash, Authorized)) + One(s.Finish? && s.hash == hash && reply == Done(false))
               <= One(Is(records, hash, Authorized)) + One(s.Authorize? && s.hash == hash && reply == Granted)
  {
    hide Matches, Late, RenewalLease, LiveOf;
  }

  /** A capability is authorized at most once for each time it was issued, and consumed at most once for each time it
      was authorized: with fresh hashes, once and only after authorization. */
  lemma {:induction false} EveryUseIsPaidFor(steps: seq<Step>, cap: nat, hash: Hash)
    ensures var uses, records := UsesOf(map[], steps, cap, hash), Run(map[], steps, cap);
            && uses.authorized + One(Is(records, hash, Active)) <= uses.issued
            && uses.consumed + One(Is(records, hash, Authorized)) <= uses.authorized
  {
    if steps != [] {
      hide Apply, Is, One;
      EveryUseIsPaidFor(steps[..|steps| - 1], cap, hash);
      StepUses(Run(map[], steps[..|steps| - 1], cap), steps[|steps| - 1], cap, hash);
    } else {
      assert !Is(map[], hash, Active) && !Is(map[], hash, Authorized);
    }
  }

  /** A hash that was issued once is authorized at most once and consumed at most once, along any run. */
  lemma {:induction false} IssuedOnceIsUsedOnce(steps: seq<Step>, cap: nat, hash: Hash)
    requires forall i, j | 0 <= i < j < |steps| ::
               !(steps[i].Issue? && steps[i].hash == hash && steps[j].Issue? && steps[j].hash == hash)
    ensures var uses := UsesOf(map[], steps, cap, hash); uses.issued <= 1 && uses.authorized <= 1 && uses.consumed <= 1
  {
    EveryUseIsPaidFor(steps, cap, hash);
    IssuedOnce(map[], steps, cap, hash);
  }

  lemma {:induction false} IssuedOnce(records: Records, steps: seq<Step>, cap: nat, hash: Hash)
    requires forall i, j | 0 <= i < j < |steps| ::
               !(steps[i].Issue? && steps[i].hash == hash && steps[j].Issue? && steps[j].hash == hash)
    ensures UsesOf(records, steps, cap, hash).issued <= 1
    ensures (forall s <- steps :: !(s.Issue? && s.hash == hash)) ==> UsesOf(records, steps, cap, hash).issued == 0
  {
    if steps != [] {
      hide Apply;
      var before, s := steps[..|steps| - 1], steps[|steps| - 1];
      assert steps == before + [s];
      IssuedOnce(records, before, cap, hash);
      if s.Issue? && s.hash == hash {
        forall t <- before
          ensures !(t.Issue? && t.hash == hash)
        {
          var i :| 0 <= i < |before| && before[i] == t;
          assert steps[i] == t && steps[|steps| - 1] == s;
        }
      }
    }
  }

  /** Issuing again under a hash in use brings the capability back to life: the bound per hash is one per issue, not
      one. */
  lemma ReissueRevives(hash: Hash, record: Record, now: Time)
    requires record.expiresAt >= now
    ensures var steps := [Issue(hash, record, now), Revoke(OfTenant(record.identity.tenant), now),
                          Issue(hash, record, now)];
            Is(Run(map[], steps[..2], 1), hash, Revoked) && Is(Run(map[], steps, 1), hash, Active)
  {
    hide ExpireAll, LiveOf;
    var issue, revoke := Issue(hash, record, now), Revoke(OfTenant(record.identity.tenant), now);
    var none: Records := map[];
    var first, second := none[hash := record.(status := Active)], none[hash := record.(status := Revoked)];
    assert [issue, revoke, issue][..2] == [] + [issue] + [revoke]
           && [issue, revoke, issue] == [] + [issue] + [revoke] + [issue];
    RunNext(none, [], issue, 1);
    RunNext(none, [] + [issue], revoke, 1);
    RunNext(none, [] + [issue] + [revoke], issue, 1);
    IssuedAlone(none, hash, record, now);
    assert RevokeAll(first, OfTenant(record.identity.tenant)) == second;
    IssuedAlone(second, hash, record, now);
  }

  lemma RunNext(records: Records, steps: seq<Step>, s: Step, cap: nat)
    ensures Run(records, steps + [s], cap) == Apply(Run(records, steps, cap), s, cap).0
  {
    hide Apply;
    assert (steps + [s])[..|steps + [s]| - 1] == steps;
  }

  lemma IssuedAlone(records: Records, hash: Hash, record: Record, now: Time)
    requires forall h <- records :: h == hash && !IsLive(records[h])
    ensures Apply(records, Issue(hash, record, now), 1).0 == map[hash := record.(status := Active)]
  {
    assert LiveOf(ExpireAll(records, now), record.identity.tenant) == {};
  }

  // From issue to use.

  /** Steps about other capabilities, of which none revokes and none issues after the lease is over. */
  ghost predicate Elsewhere(steps: seq<Step>, hash: Hash, until: Time) {
    forall s <- steps :: !s.Revoke? && s.hash != hash && (s.Issue? ==> s.now <= until)
  }

  lemma {:induction false} LeftAlone(records: Records, steps: seq<Step>, cap: nat, hash: Hash)
    requires hash in records && Elsewhere(steps, hash, records[hash].expiresAt)
    ensures hash in Run(records, steps, cap) && Run(records, steps, cap)[hash] == records[hash]
  {
    if steps != [] {
      hide LiveOf, Late, RenewalLease;
      assert steps[|steps| - 1] in steps;
      LeftAlone(records, steps[..|steps| - 1], cap, hash);
    }
  }

  /** A capability is issued if its tenant has fewer live ones than the cap; left alone it can then be authorized by its
      holder for its own operation and objects, and used once, each before its lease and the skew are over. */
  lemma IssuedIsUsable(records: Records, hash: Hash, record: Record, cap: nat, at: Time, first: seq<Step>, skew: nat,
                       later: Time, second: seq<Step>, latest: Time)
    requires |set h | h in records && records[h].status in {Active, Authorized} && at <= records[h].expiresAt
                      && records[h].identity.tenant == record.identity.tenant| < cap
    requires Elsewhere(first, hash, record.expiresAt) && Elsewhere(second, hash, record.expiresAt)
    requires later <= record.expiresAt + skew && latest <= record.expiresAt + skew
    ensures var (issued, reply) := Apply(records, Issue(hash, record, at), cap);
            var asked := Run(issued, first, cap);
            var (given, granted) :=
              Apply(asked, Authorize(hash, record.identity, record.kind, record.scope, skew, later), cap);
            var (done, finished) := Apply(Run(given, second, cap), Finish(hash, record.identity, skew, latest), cap);
            && reply == Issued && granted == Granted && finished == Done(false)
            && hash in done && done[hash].status == Consumed
  {
    hide Run;
    var live := set h | h in records && records[h].status in {Active, Authorized} && at <= records[h].expiresAt
                        && records[h].identity.tenant == record.identity.tenant;
    assert LiveOf(ExpireAll(records, at), record.identity.tenant) == live;
    var issued := Apply(records, Issue(hash, record, at), cap).0;
    LeftAlone(issued, first, cap, hash);
    var asked := Run(issued, first, cap);
    var given := Apply(asked, Authorize(hash, record.identity, record.kind, record.scope, skew, later), cap).0;
    LeftAlone(given, second, cap, hash);
  }

  // Closed capabilities and leases.

  ghost predicate SameOrLonger(before: Record, after: Record) {
    && after.identity == before.identity && after.kind == before.kind && after.scope == before.scope
    && before.expiresAt <= after.expiresAt && (!IsLive(before) ==> after == before)
  }

  lemma StepStaysClosed(records: Records, s: Step, cap: nat, hash: Hash)
    requires hash in records && !(s.Issue? && s.hash == hash)
    ensures hash in Apply(records, s, cap).0 && SameOrLonger(records[hash], Apply(records, s, cap).0[hash])
  {
    hide Matches, Late, RenewalLease, LiveOf;
  }

  /** CONSUMED, REVOKED and EXPIRED are final until the hash is issued anew, and a lease never gets shorter. */
  lemma {:induction false} ClosedStaysClosed(records: Records, steps: seq<Step>, cap: nat, hash: Hash)
    requires hash in records && forall s <- steps :: !(s.Issue? && s.hash == hash)
    ensures hash in Run(records, steps, cap) && SameOrLonger(records[hash], Run(records, steps, cap)[hash])
  {
    if steps != [] {
      hide Apply;
      assert steps[|steps| - 1] in steps;
      ClosedStaysClosed(records, steps[..|steps| - 1], cap, hash);
      StepStaysClosed(Run(records, steps[..|steps| - 1], cap), steps[|steps| - 1], cap, hash);
    }
  }

  /** What each revocation is after: the operations of a session that are not among the live ones, all of a session, all
      of a login (on one installation or on any), all of a tenant. */
  ghost predicate Concerns(r: Revocation, record: Record) {
    && (r.MissingOperations? ==> && record.identity.installation == r.installation
                                 && record.identity.session == r.session && record.identity.tenant == r.tenant
                                 && forall operation <- r.live :: operation != record.operationId)
    && (r.OfSession? ==> record.identity.session == r.session && record.identity.installation == r.installation)
    && (r.OfAuthSession? ==> record.identity.authSession == r.authSession
                             && r.onInstallation in {None, Some(record.identity.installation)})
    && (r.OfTenant? ==> record.identity.tenant == r.tenant)
  }

  /** A revocation ends exactly the ACTIVE and AUTHORIZED capabilities it concerns, and changes nothing else of them or
      of any other. */
  lemma RevokesExactly(records: Records, r: Revocation, hash: Hash)
    requires hash in records
    ensures var after := RevokeAll(records, r);
            && after.Keys == records.Keys
            && after[hash] == if Concerns(r, records[hash]) && records[hash].status in {Active, Authorized}
                              then records[hash].(status := Revoked) else records[hash]
    ensures Matches(records[hash], r) <==> Concerns(r, records[hash])
  {
    if r.OfAuthSession? && r.onInstallation.Some? {
      assert r.onInstallation in {None, Some(records[hash].identity.installation)}
             <==> r.onInstallation.value == records[hash].identity.installation;
    }
  }

  /** After a revocation nothing it concerns can be authorized, renewed or consumed again unless it is issued anew. */
  lemma {:induction false} RevokedIsUseless(records: Records, r: Revocation, steps: seq<Step>, s: Step, cap: nat,
                                            hash: Hash)
    requires hash in records && Concerns(r, records[hash]) && forall t <- steps :: !(t.Issue? && t.hash == hash)
    requires (s.Authorize? || s.Renew? || s.Finish?) && s.hash == hash
    ensures var reply := Apply(Run(RevokeAll(records, r), steps, cap), s, cap).1;
            reply.ScopeDenied? || reply.Closed? || (records[hash].status == Consumed && reply == Done(true))
  {
    hide Matches, Late, RenewalLease, LiveOf, Run, Concerns;
    RevokesExactly(records, r, hash);
    ClosedStaysClosed(RevokeAll(records, r), steps, cap, hash);
  }

  /** A capability is granted only to the holder, operation and objects it was issued for, and not after its lease and
      the skew. */
  lemma GrantedExactlyWhen(records: Records, hash: Hash, who: Identity, kind: string, scope: Scope, skew: nat,
                           now: Time,
                           cap: nat)
    ensures Apply(records, Authorize(hash, who, kind, scope, skew, now), cap).1 == Granted
            <==> hash in records && records[hash].identity == who && records[hash].kind == kind
                 && records[hash].scope == scope
                 && records[hash].status == Active && now <= records[hash].expiresAt + skew
  {
  }

  /** No authorization of this hash succeeds, whoever asks for whatever and whenever. */
  ghost predicate NotGranted(records: Records, hash: Hash) {
    forall who, kind, scope, skew, now, cap :: Apply(records, Authorize(hash, who, kind, scope, skew, now),
                                                     cap).1 != Granted
  }

  ghost predicate NoMoreLive(before: Records, after: Records) {
    forall tenant :: LiveOf(after, tenant) <= LiveOf(before, tenant)
  }

  // The store over its Map.

  class MemoryStore {
    const cap: nat
    var records: Records

    constructor (cap: nat)
      ensures records == map[] && this.cap == cap
    {
      this.cap := cap;
      records := map[];
    }

    method Sweep(now: Time)
      modifies this
      ensures records == ExpireAll(old(records), now)
    {
      ghost var before := records;
      var todo := records.Keys;
      while todo != {}
        invariant todo <= before.Keys && records.Keys == before.Keys
        invariant forall h <- before :: records[h] == if h in todo then before[h] else ExpireAll(before, now)[h]
        decreases |todo|
      {
        var h :| h in todo;
        todo := todo - {h};
        if IsLive(records[h]) && records[h].expiresAt < now {
          records := records[h := records[h].(status := Expired)];
        }
      }
    }

    method CountLive(tenant: string) returns (live: nat)
      ensures live == |LiveOf(records, tenant)|
    {
      var todo, found: set<Hash> := records.Keys, {};
      live := 0;
      while todo != {}
        invariant todo <= records.Keys && live == |found|
        invariant found == set h | h in LiveOf(records, tenant) && h !in todo
        decreases |todo|
      {
        var h :| h in todo;
        todo := todo - {h};
        if IsLive(records[h]) && records[h].identity.tenant == tenant {
          found := found + {h};
          live := live + 1;
        }
      }
      assert found == LiveOf(records, tenant);
    }

    method IssueCapability(hash: Hash, record: Record, now: Time) returns (reply: Reply)
      modifies this
      ensures (records, reply) == Apply(old(records), Issue(hash, record, now), cap)
    {
      hide ExpireAll, LiveOf;
      Sweep(now);
      var live := CountLive(record.identity.tenant);
      if live >= cap {
        return CapReached;
      }
      records := records[hash := record.(status := Active)];
      return Issued;
    }

    method AuthorizeCapability(hash: Hash, who: Identity, kind: string, scope: Scope, skew: nat,
                               now: Time) returns (reply: Reply)
      modifies this
      ensures (records, reply) == Apply(old(records), Authorize(hash, who, kind, scope, skew, now), cap)
      ensures reply == Granted <==>
                && hash in old(records) && old(records)[hash].identity == who && old(records)[hash].kind == kind
                && old(records)[hash].scope == scope && old(records)[hash].status == Active
                && now <= old(records)[hash].expiresAt + skew
      ensures reply == Granted || reply.Closed? ==> NotGranted(records, hash)
      ensures records - {hash} == old(records) - {hash} && NoMoreLive(old(records), records)
    {
      if hash !in records {
        return Unknown;
      }
      var record := records[hash];
      if record.identity != who {
        return ScopeDenied;
      }
      if record.kind != kind || record.scope != scope {
        return ScopeDenied;
      }
      if record.status != Active {
        return Closed(record.status);
      }
      if record.expiresAt + skew < now {
        records := records[hash := record.(status := Expired)];
        return Closed(Expired);
      }
      records := records[hash := record.(status := Authorized)];
      return Granted;
    }

    method RenewCapability(hash: Hash, who: Identity, leaseMs: nat, skew: nat, now: Time) returns (reply: Reply)
      modifies this
      ensures (records, reply) == Apply(old(records), Renew(hash, who, leaseMs, skew, now), cap)
      ensures reply == Renewed <==>
                && hash in old(records) && old(records)[hash].identity == who && old(records)[hash].status == Authorized
                && now <= old(records)[hash].expiresAt + skew
      ensures reply == Renewed ==>
                && records[hash].status == Authorized && records[hash].expiresAt >= old(records)[hash].expiresAt
                && now + 30000 <= records[hash].expiresAt <= Max(old(records)[hash].expiresAt, now + 30 * 60 * 1000)
                && var asked := if leaseMs == 0 then 600_000 else if leaseMs < 30_000 then 30_000
                                else if leaseMs > 1_800_000 then 1_800_000 else leaseMs;
                   records[hash].expiresAt == Max(old(records)[hash].expiresAt, now + asked)
      ensures records - {hash} == old(records) - {hash} && NoMoreLive(old(records), records)
    {
      if hash !in records {
        return Unknown;
      }
      var record := records[hash];
      if record.identity != who {
        return ScopeDenied;
      }
      if record.status != Authorized {
        return Closed(record.status);
      }
      if record.expiresAt + skew < now {
        records := records[hash := record.(status := Expired)];
        return Closed(Expired);
      }
      records := records[hash := record.(expiresAt := Max(record.expiresAt, now + RenewalLease(leaseMs)))];
      return Renewed;
    }

    method FinishCapability(hash: Hash, who: Identity, skew: nat, now: Time) returns (reply: Reply)
      modifies this
      ensures (records, reply) == Apply(old(records), Finish(hash, who, skew, now), cap)
      ensures reply == Done(false) <==>
                && hash in old(records) && old(records)[hash].identity == who && old(records)[hash].status == Authorized
                && now <= old(records)[hash].expiresAt + skew
      ensures reply == ScopeDenied <==> hash in old(records) && old(records)[hash].identity != who
      ensures reply == Abandoned <==>
                hash in old(records) && old(records)[hash].identity == who && old(records)[hash].status == Active
      ensures reply == Done(true) <==>
                hash in old(records) && old(records)[hash].identity == who && old(records)[hash].status == Consumed
      ensures !reply.Unknown? && !reply.ScopeDenied? ==> hash in records && !IsLive(records[hash])
                                                         && NotGranted(records, hash)
      ensures reply.Done? ==> forall later: Time, other: nat ::
                                Apply(records, Finish(hash, who, other, later), cap) == (records, Done(true))
      ensures records - {hash} == old(records) - {hash} && NoMoreLive(old(records), records)
    {
      if hash !in records {
        return Unknown;
      }
      var record := records[hash];
      if record.identity != who {
        return ScopeDenied;
      }
      if record.status == Active {
        records := records[hash := record.(status := Revoked)];
        return Abandoned;
      }
      if record.status == Consumed {
        return Done(true);
      }
      if record.status != Authorized {
        return Closed(record.status);
      }
      if record.expiresAt + skew < now {
        records := records[hash := record.(status := Expired)];
        return Closed(Expired);
      }
      records := records[hash := record.(status := Consumed)];
      return Done(false);
    }

    /** Revokes the live records the revocation matches and counts them. */
    method RevokeMatching(r: Revocation) returns (count: nat)
      modifies this
      ensures records == RevokeAll(old(records), r) && count == |LiveMatching(old(records), r)|
      ensures forall h <- old(records) ::
                h in records && records[h] == (if h in LiveMatching(old(records), r)
                                               then old(records)[h].(status := Revoked) else old(records)[h])
                && (h in LiveMatching(old(records), r)
                    <==> old(records)[h].status in {Active, Authorized} && Concerns(r, old(records)[h]))
    {
      hide RevokeSome, Matches, Concerns;
      forall h <- records
        ensures Matches(records[h], r) <==> Concerns(r, records[h])
      {
        RevokesExactly(records, r, h);
      }
      ghost var before, all := records, records.Keys;
      var todo := records.Keys;
      count := 0;
      NoneRevoked(before, r);
      while todo != {}
        invariant todo <= all && records == RevokeSome(before, r, all - todo)
                  && count == |LiveMatching(before, r) * (all - todo)|
        decreases |todo|
      {
        var h :| h in todo;
        OneMoreRevoked(before, r, all, todo, h);
        if IsLive(records[h]) && Matches(records[h], r) {
          records := records[h := records[h].(status := Revoked)];
          count := count + 1;
        }
        todo := todo - {h};
      }
    }
  }

  /** RevokeAll restricted to the records a loop has visited. */
  function RevokeSome(records: Records, r: Revocation, done: set<Hash>): Records {
    map h | h in records ::
      if h in done && IsLive(records[h]) && Matches(records[h], r) then records[h].(status := Revoked) else records[h]
  }

  lemma NoneRevoked(records: Records, r: Revocation)
    ensures RevokeSome(records, r, records.Keys - records.Keys) == records
    ensures RevokeSome(records, r, records.Keys - {}) == RevokeAll(records, r)
    ensures LiveMatching(records, r) * (records.Keys - records.Keys) == {}
            && LiveMatching(records, r) * (records.Keys - {}) == LiveMatching(records, r)
  {
    hide Matches;
  }

  lemma RevokeNext(records: Records, r: Revocation, done: set<Hash>, h: Hash)
    requires h in records && h !in done
    ensures var some, next := RevokeSome(records, r, done), RevokeSome(records, r, done + {h});
            && h in some && some[h] == records[h]
            && next == if IsLive(records[h]) && Matches(records[h], r) then some[h := some[h].(status := Revoked)]
               else some
  {
    hide Matches;
  }

  lemma CountNext(matching: set<Hash>, done: set<Hash>, h: Hash)
    requires h !in done
    ensures |matching * (done + {h})| == |matching * done| + One(h in matching)
  {
    if h in matching {
      assert matching * (done + {h}) == (matching * done) + {h};
    } else {
      assert matching * (done + {h}) == matching * done;
    }
  }

  lemma OneMoreRevoked(records: Records, r: Revocation, all: set<Hash>, todo: set<Hash>, h: Hash)
    requires all == records.Keys && todo <= all && h in todo
    ensures |todo - {h}| < |todo|
    ensures var some, next := RevokeSome(records, r, all - todo), RevokeSome(records, r, all - (todo - {h}));
            var hit := IsLive(records[h]) && Matches(records[h], r);
            && h in some && some[h] == records[h]
            && next == (if hit then some[h := some[h].(status := Revoked)] else some)
            && |LiveMatching(records, r) * (all - (todo - {h}))| == |LiveMatching(records, r) * (all - todo)| + One(hit)
  {
    hide Matches, RevokeSome;
    OneLess(all, todo, h);
    RevokeNext(records, r, all - todo, h);
    CountNext(LiveMatching(records, r), all - todo, h);
  }
}
