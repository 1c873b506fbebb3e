/** Creating provider checkouts at most once, under a lock per user, across timeouts and crashes. */
module Checkout {
  import opened Wrappers

  type User = string
  type RequestId = string

  datatype Key = Key(user: User, request: RequestId)

  datatype State = Creating | Open | Ambiguous | Completed | Failed

  /** `hash` is the digest of offer and callback addresses. */
  datatype Row = Row(hash: string, state: State, checkoutId: Option<string>, url: Option<string>)

  type Rows = map<Key, Row>

  /** A request that holds its user's lock, and whether it has asked the provider yet. */
  datatype Flight = Flight(request: RequestId, called: bool)

  datatype Service = Service(rows: Rows, flights: map<User, Flight>)

  datatype Outcome =
    | Created(checkoutId: string, url: string)
    | Uncertain  // a timeout, or an error after which the checkout may exist
    | Rejected   // an error raised before anything was created
    | Malformed  // an answer without id or address: the row stays as it is
    | NotSaved   // the database failed: the row stays as it is

  datatype Refusal =
    | SubscriberPortalRequired | RequestConflict | CreationAmbiguous | UnresolvedExists | ProviderRejected
    | AlreadyResolved(state: State) | InvalidResponse | PersistenceUncertain | ProcessDied

  datatype Reply = Opened(checkoutId: string, url: string, recovered: bool) | Refused(reason: Refusal)

  /** `Begin` takes the lock and writes the row, `Call` asks the provider, `End` stores its answer and lets the lock go;
      `Crash` lets it go at any point. `Complete` is a paid order that names a checkout; it takes another lock. */
  datatype Step =
    | Begin(key: Key, hash: string, live: bool)
    | Call(user: User)
    | End(user: User, outcome: Outcome)
    | Crash(user: User)
    | Complete(user: User, checkoutId: string)

  predicate Unresolved(state: State) {
    state in {Creating, Open, Ambiguous}
  }

  predicate HasUnresolved(rows: Rows, user: User) {
    exists k <- rows :: k.user == user && Unresolved(rows[k].state)
  }

  /** The row is written only for a request never seen, when nothing of the user is unresolved. */
  predicate Starts(rows: Rows, key: Key, live: bool) {
    !live && key !in rows && !HasUnresolved(rows, key.user)
  }

  function Answer(row: Row, outcome: Outcome): Row {
    if row.state != Creating then row
    else
      match outcome
      case Created(checkoutId, url) => row.(state := Open, checkoutId := Some(checkoutId), url := Some(url))
      case Uncertain => row.(state := Ambiguous)
      case Rejected => row.(state := Failed)
      case _ => row
  }

  /** A retry that finds its row still CREATING does not know what happened to it. */
  function Seen(rows: Rows, key: Key, hash: string): Rows {
    if key in rows && rows[key].hash == hash && rows[key].state == Creating
       then rows[key := rows[key].(state := Ambiguous)] else rows
  }

  function CompleteRow(row: Row, checkoutId: string): Row {
    if row.checkoutId == Some(checkoutId) && (Unresolved(row.state) || row.state == Completed)
       then row.(state := Completed) else row
  }

  function Apply(s: Service, step: Step): Service {
    match step
    case Begin(key, hash, live) =>
      if key.user in s.flights || live then s
      else if key in s.rows then s.(rows := Seen(s.rows, key, hash))
      else if HasUnresolved(s.rows, key.user) then s
      else Service(s.rows[key := Row(hash, Creating, None, None)], s.flights[key.user := Flight(key.request, false)])
    case Call(user) => if user in s.flights then s.(flights := s.flights[user := s.flights[user].(called := true)])
                       else s
    case End(user, outcome) =>
      if user in s.flights && s.flights[user].called then
        var key := Key(user, s.flights[user].request);
        Service(if key in s.rows then s.rows[key := Answer(s.rows[key], outcome)] else s.rows, s.flights - {user})
      else s
    case Crash(user) => s.(flights := s.flights - {user})
    case Complete(user, checkoutId) =>
      s.(rows := map k | k in s.rows :: if k.user == user then CompleteRow(s.rows[k], checkoutId) else s.rows[k])
  }

  function Run(s: Service, steps: seq<Step>): Service {
    if steps == [] then s else Apply(Run(s, steps[..|steps| - 1]), steps[|steps| - 1])
  }

  /** A `Call` reaches the provider when its flight has not called before. */
  function CallOf(s: Service, step: Step, key: Key): nat {
    if step.Call? && step.user == key.user && step.user in s.flights
       && s.flights[step.user] == Flight(key.request, false) then 1 else 0
  }

  function Calls(s: Service, steps: seq<Step>, key: Key): nat {
    if steps == [] then 0
    else Calls(s, steps[..|steps| - 1], key) + CallOf(Run(s, steps[..|steps| - 1]), steps[|steps| - 1], key)
  }

  const EMPTY := Service(map[], map[])

  // At most one unresolved request per user.

  ghost predicate OneUnresolved(rows: Rows) {
    forall j, k | j in rows && k in rows && j.user == k.user && Unresolved(rows[j].state)
                  && Unresolved(rows[k].state) :: j == k
  }

  /** A flight's row exists; while it is unresolved no other request of the user is. */
  ghost predicate FlightsHaveRows(s: Service) {
    forall u <- s.flights :: Key(u, s.flights[u].request) in s.rows
  }

  lemma StepKeepsOneUnresolved(s: Service, step: Step)
    requires OneUnresolved(s.rows) && FlightsHaveRows(s)
    ensures OneUnresolved(Apply(s, step).rows) && FlightsHaveRows(Apply(s, step))
  {
    match step
    case Begin(key, hash, live) =>
    case Complete(user, checkoutId) =>
    case _ =>
  }

  lemma {:induction false} OneUnresolvedPerUser(steps: seq<Step>)
    ensures OneUnresolved(Run(EMPTY, steps).rows) && FlightsHaveRows(Run(EMPTY, steps))
  {
    if steps != [] {
      hide Apply;
      OneUnresolvedPerUser(steps[..|steps| - 1]);
      StepKeepsOneUnresolved(Run(EMPTY, steps[..|steps| - 1]), steps[|steps| - 1]);
    }
  }

  // At most one call per request.

  ghost predicate CanStillCall(s: Service, key: Key) {
    key.user in s.flights && s.flights[key.user] == Flight(key.request, false)
  }

  lemma StepCalls(s: Service, step: Step, key: Key)
    requires FlightsHaveRows(s)
    ensures var after := Apply(s, step);
            && (key in s.rows ==> key in after.rows)
            && (CallOf(s, step, key) == 1 ==> CanStillCall(s, key) && !CanStillCall(after, key))
            && (CanStillCall(after, key) ==> CanStillCall(s, key) || key !in s.rows)
            && (CanStillCall(s, key) ==> key in s.rows)
  {
  }

  /** The provider is asked at most once for a request, whatever is retried, timed out or killed, and not before its row
      was written. */
  lemma {:induction false} AtMostOneCall(steps: seq<Step>, key: Key)
    ensures var s := Run(EMPTY, steps);
            && Calls(EMPTY, steps, key) <= 1
            && (key !in s.rows || CanStillCall(s, key) ==> Calls(EMPTY, steps, key) == 0)
  {
    if steps != [] {
      hide Apply, CanStillCall, CallOf;
      var before := steps[..|steps| - 1];
      AtMostOneCall(before, key);
      OneUnresolvedPerUser(before);
      StepCalls(Run(EMPTY, before), steps[|steps| - 1], key);
      CallIsZeroOrOne(Run(EMPTY, before), steps[|steps| - 1], key);
    }
  }

  lemma CallIsZeroOrOne(s: Service, step: Step, key: Key)
    ensures CallOf(s, step, key) == 0 || CallOf(s, step, key) == 1
  {
  }

  /** While a request has not asked the provider yet, its row is CREATING; a row that left CREATING never returns to
      it. */
  ghost predicate UncalledAreCreating(s: Service) {
    forall u <- s.flights :: Key(u, s.flights[u].request) in s.rows
      && s.rows[Key(u, s.flights[u].request)].state == Creating
  }

  ghost predicate CheckoutIdsAreStored(s: Service) {
    forall k <- s.rows :: s.rows[k].state == Creating ==> s.rows[k].checkoutId.None?
  }

  lemma StepKeepsCreating(s: Service, step: Step)
    requires UncalledAreCreating(s) && CheckoutIdsAreStored(s)
    ensures UncalledAreCreating(Apply(s, step)) && CheckoutIdsAreStored(Apply(s, step))
  {
  }

  lemma {:induction false} FlightsAreCreating(steps: seq<Step>)
    ensures UncalledAreCreating(Run(EMPTY, steps)) && CheckoutIdsAreStored(Run(EMPTY, steps))
  {
    if steps != [] {
      hide Apply;
      FlightsAreCreating(steps[..|steps| - 1]);
      StepKeepsCreating(Run(EMPTY, steps[..|steps| - 1]), steps[|steps| - 1]);
    }
  }

  /** The provider is never asked while another request of the user is unresolved. */
  lemma {:induction false} NoCallWhileUnresolved(steps: seq<Step>, key: Key, other: Key)
    requires CallOf(Run(EMPTY, steps), Call(key.user), key) == 1
    requires other.user == key.user && other in Run(EMPTY, steps).rows
             && Run(EMPTY, steps).rows[other].state in {Creating, Open, Ambiguous}
    ensures other == key
  {
    hide Run;
    OneUnresolvedPerUser(steps);
    FlightsAreCreating(steps);
  }

  // Resolution.

  /** COMPLETED and FAILED requests stay so, and the checkout a request was given is never replaced. */
  lemma {:induction false} ResolvedIsForever(s: Service, steps: seq<Step>, key: Key)
    requires key in s.rows && FlightsHaveRows(s)
    ensures var row, after := s.rows[key], Run(s, steps);
            && FlightsHaveRows(after) && key in after.rows && after.rows[key].hash == row.hash
            && (row.state == Completed || row.state == Failed ==> after.rows[key] == row)
            && (row.state != Creating ==> after.rows[key].state != Creating
                                          && after.rows[key].checkoutId == row.checkoutId
                                             && after.rows[key].url == row.url)
  {
    if steps != [] {
      ResolvedIsForever(s, steps[..|steps| - 1], key);
      StepResolves(Run(s, steps[..|steps| - 1]), steps[|steps| - 1], key);
    }
  }

  lemma StepResolves(s: Service, step: Step, key: Key)
    requires key in s.rows && FlightsHaveRows(s)
    ensures var row, after := s.rows[key], Apply(s, step);
            && FlightsHaveRows(after) && key in after.rows && after.rows[key].hash == row.hash
            && (row.state == Completed || row.state == Failed ==> after.rows[key] == row)
            && (row.state != Creating ==> after.rows[key].state != Creating
                                          && after.rows[key].checkoutId == row.checkoutId
                                             && after.rows[key].url == row.url)
  {
  }

  // What a call leaves behind.

  /** Every request of the user was paid or failed. */
  ghost predicate Settled(rows: Rows, user: User) {
    forall k <- rows :: k.user == user ==> rows[k].state == Completed || rows[k].state == Failed
  }

  /** The request waits for its payment, or nobody knows whether its checkout exists, and no flight of its user is under
      way. */
  ghost predicate Waiting(s: Service, key: Key) {
    && key in s.rows && s.rows[key].state != Completed && s.rows[key].state != Failed && key.user !in s.flights
  }

  /** A paid order that names the checkout the request was given. */
  predicate Pays(step: Step, user: User, checkoutId: Option<string>) {
    step.Complete? && step.user == user && checkoutId == Some(step.checkoutId)
  }

  lemma StepWaits(s: Service, step: Step, key: Key, other: Key)
    requires Waiting(s, key) && !Pays(step, key.user, s.rows[key].checkoutId) && other.user == key.user
    ensures Waiting(Apply(s, step), key) && Apply(s, step).rows[key].checkoutId == s.rows[key].checkoutId
    ensures CallOf(s, step, other) == 0
  {
  }

  /** While a request waits, the provider is asked for no other of its user, in any run without an order that pays its
      checkout; one whose checkout was never stored is paid by no order, so it stops its user for good. */
  lemma {:induction false} WaitingStopsItsUser(s: Service, steps: seq<Step>, key: Key, other: Key)
    requires Waiting(s, key) && other.user == key.user
    requires forall step <- steps :: !Pays(step, key.user, s.rows[key].checkoutId)
    ensures Waiting(Run(s, steps), key) && Run(s, steps).rows[key].checkoutId == s.rows[key].checkoutId
    ensures Calls(s, steps, other) == 0
  {
    if steps != [] {
      hide Apply, CallOf, Waiting, Pays;
      assert steps[|steps| - 1] in steps;
      WaitingStopsItsUser(s, steps[..|steps| - 1], key, other);
      StepWaits(Run(s, steps[..|steps| - 1]), steps[|steps| - 1], key, other);
    }
  }

  /** In any reachable state: what the answer to a call, or the death of its process, makes of the request. */
  lemma OutcomeExactly(steps: seq<Step>, user: User, outcome: Outcome)
    requires user in Run(EMPTY, steps).flights && Run(EMPTY, steps).flights[user].called
    ensures var s := Run(EMPTY, steps);
            var key := Key(user, s.flights[user].request);
            var answered, died := Apply(s, End(user, outcome)), Apply(s, Crash(user));
            && key in s.rows && user !in answered.flights && user !in died.flights
            && answered.rows == s.rows[key := match outcome
                                              case Created(id, url) => Row(s.rows[key].hash, Open, Some(id), Some(url))
                                              case Uncertain => s.rows[key].(state := Ambiguous)
                                              case Rejected => s.rows[key].(state := Failed)
                                              case _ => s.rows[key]]
            && died.rows == s.rows && s.rows[key].state == Creating && s.rows[key].checkoutId.None?
  {
    hide Run;
    FlightsAreCreating(steps);
  }

  /** After a timeout, an answer that was lost or not understood, or the death of its process, a call is the last one
      made for its user, whatever is retried and paid later. */
  lemma UncertainCallIsTheLast(steps: seq<Step>, user: User, step: Step, more: seq<Step>, other: Key)
    requires user in Run(EMPTY, steps).flights && Run(EMPTY, steps).flights[user].called && other.user == user
    requires step == Crash(user)
             || (step.End? && step.user == user && !step.outcome.Created? && !step.outcome.Rejected?)
    ensures Calls(Apply(Run(EMPTY, steps), step), more, other) == 0
  {
    hide Run, Calls;
    var s := Run(EMPTY, steps);
    OutcomeExactly(steps, user, if step.End? then step.outcome else Uncertain);
    var key := Key(user, s.flights[user].request);
    assert Waiting(Apply(s, step), key) && Apply(s, step).rows[key].checkoutId.None?;
    WaitingStopsItsUser(Apply(s, step), more, key, other);
  }

  lemma CallsNext(s: Service, steps: seq<Step>, step: Step, key: Key)
    ensures Run(s, steps + [step]) == Apply(Run(s, steps), step)
    ensures Calls(s, steps + [step], key) == Calls(s, steps, key) + CallOf(Run(s, steps), step, key)
  {
    hide Apply, CallOf;
    assert (steps + [step])[..|steps + [step]| - 1] == steps;
  }

  /** After a plain rejection the user's next new request, with no live subscription, is the one call for it. */
  lemma RejectedMayTryAgain(steps: seq<Step>, user: User, next: Key, hash: string)
    requires user in Run(EMPTY, steps).flights && Run(EMPTY, steps).flights[user].called
    requires next.user == user && next !in Run(EMPTY, steps).rows
    ensures Settled(Run(EMPTY, steps + [End(user, Rejected)]).rows, user)
    ensures Calls(EMPTY, steps + [End(user, Rejected)] + [Begin(next, hash, false)] + [Call(user)], next) == 1
  {
    hide Run, Calls;
    AtMostOneCall(steps, next);
    OneUnresolvedPerUser(steps);
    OutcomeExactly(steps, user, Rejected);
    CallsNext(EMPTY, steps, End(user, Rejected), next);
    CallsNext(EMPTY, steps + [End(user, Rejected)], Begin(next, hash, false), next);
    CallsNext(EMPTY, steps + [End(user, Rejected)] + [Begin(next, hash, false)], Call(user), next);
  }

  /** A paid order completes the request that waits for it, and its user may start anew: nothing else of his waits. */
  lemma PaidIsCompleted(steps: seq<Step>, key: Key, checkoutId: string)
    requires key in Run(EMPTY, steps).rows && Run(EMPTY, steps).rows[key].checkoutId == Some(checkoutId)
    requires Run(EMPTY, steps).rows[key].state in {Creating, Open, Ambiguous}
    ensures var after := Apply(Run(EMPTY, steps), Complete(key.user, checkoutId));
            && after.rows[key] == Run(EMPTY, steps).rows[key].(state := Completed)
            && Settled(after.rows, key.user) && after.flights == Run(EMPTY, steps).flights
  {
    hide Run;
    OneUnresolvedPerUser(steps);
  }

  // The service over its table.

  /** Where a session's process dies, if it does. */
  datatype Death = Survives | BeforeCall | AfterCall

  function SessionSteps(key: Key, hash: string, live: bool, outcome: Outcome, death: Death): seq<Step> {
    match death
    case Survives => [Begin(key, hash, live), Call(key.user), End(key.user, outcome)]
    case BeforeCall => [Begin(key, hash, live), Crash(key.user)]
    case AfterCall => [Begin(key, hash, live), Call(key.user), Crash(key.user)]
  }

  lemma RunThree(s: Service, a: Step, b: Step, c: Step)
    ensures Run(s, [a, b]) == Apply(Apply(s, a), b) && Run(s, [a, b, c]) == Apply(Apply(Apply(s, a), b), c)
  {
    hide Apply;
    assert [a, b, c][..2] == [a, b] && [a, b][..1] == [a] && [a][..0] == [];
    assert Run(s, [a]) == Apply(s, a);
    assert Run(s, [a, b]) == Apply(Run(s, [a]), b);
  }

  lemma RunOfSession(s: Service, key: Key, hash: string, live: bool, outcome: Outcome, death: Death)
    requires s.flights == map[]
    ensures var row := Row(hash, Creating, None, None);
            Run(s, SessionSteps(key, hash, live, outcome, death)).rows
            == if live then s.rows
               else if key in s.rows then Seen(s.rows, key, hash)
               else if HasUnresolved(s.rows, key.user) then s.rows
               else s.rows[key := if death.Survives? then Answer(row, outcome) else row]
  {
    hide HasUnresolved, Run, Seen;
    var begin, call := Begin(key, hash, live), Call(key.user);
    RunThree(s, begin, call, End(key.user, outcome));
    RunThree(s, begin, call, Crash(key.user));
    RunThree(s, begin, Crash(key.user), call);
  }

  lemma SettledHasNone(rows: Rows, user: User)
    ensures Settled(rows, user) <==> !HasUnresolved(rows, user)
  {
  }

  class CheckoutService {
    var rows: Rows
    /** How often the provider was asked for each request. */
    ghost var calls: map<Key, nat>

    constructor ()
      ensures rows == map[] && calls == map[]
    {
      rows, calls := map[], map[];
    }

    /** One session under the user's lock; `live` says that the user has a live subscription. */
    method CreateSession(key: Key, hash: string, live: bool, outcome: Outcome, death: Death) returns (reply: Reply)
      modifies this
      ensures rows == Run(Service(old(rows), map[]), SessionSteps(key, hash, live, outcome, death)).rows
      ensures !live && key !in old(rows) && Settled(old(rows), key.user) ==>
                rows == old(rows)[key :=
                  if !death.Survives? then Row(hash, Creating, None, None)
                  else
                    match outcome
                    case Created(id, url) => Row(hash, Open, Some(id), Some(url))
                    case Uncertain => Row(hash, Ambiguous, None, None)
                    case Rejected => Row(hash, Failed, None, None)
                    case _ => Row(hash, Creating, None, None)]
      ensures live || key in old(rows) || !Settled(old(rows), key.user) ==>
                rows == if !live && key in old(rows) && old(rows)[key].hash == hash && old(rows)[key].state == Creating
                        then old(rows)[key := old(rows)[key].(state := Ambiguous)] else old(rows)
      ensures calls == if Starts(old(rows), key, live) && !death.BeforeCall?
                       then old(calls)[key := (if key in old(calls) then old(calls)[key] else 0) + 1] else old(calls)
      ensures reply.Opened? <==>
                !live && ((key in old(rows) && old(rows)[key].hash == hash && old(rows)[key].state == Open
                           && old(rows)[key].checkoutId.Some? && old(rows)[key].url.Some?)
                          || (Starts(old(rows), key, live) && death.Survives? && outcome.Created?))
      ensures reply.Opened? ==> key in rows && rows[key].state == Open && rows[key].checkoutId == Some(reply.checkoutId)
                                && rows[key].url == Some(reply.url)
    {
      hide Run, HasUnresolved;
      SettledHasNone(rows, key.user);
      RunOfSession(Service(rows, map[]), key, hash, live, outcome, death);
      if live {
        return Refused(SubscriberPortalRequired);
      }
      if key in rows {
        var existing := rows[key];
        if existing.hash != hash {
          return Refused(RequestConflict);
        }
        match existing.state {
          case Creating =>
            rows := rows[key := existing.(state := Ambiguous)];
            return Refused(CreationAmbiguous);
          case Ambiguous =>
            return Refused(CreationAmbiguous);
          case Open =>
            if existing.checkoutId.Some? && existing.url.Some? {
              return Opened(existing.checkoutId.value, existing.url.value, true);
            }
            return Refused(AlreadyResolved(Open));
          case state =>
            return Refused(AlreadyResolved(state));
        }
      }
      if HasUnresolved(rows, key.user) {
        return Refused(UnresolvedExists);
      }
      rows := rows[key := Row(hash, Creating, None, None)];
      if death.BeforeCall? {
        return Refused(ProcessDied);
      }
      calls := calls[key := (if key in calls then calls[key] else 0) + 1];
      if death.AfterCall? {
        return Refused(ProcessDied);
      }
      match outcome {
        case Uncertain =>
          rows := rows[key := rows[key].(state := Ambiguous)];
          return Refused(CreationAmbiguous);
        case Rejected =>
          rows := rows[key := rows[key].(state := Failed)];
          return Refused(ProviderRejected);
        case Malformed =>
          return Refused(InvalidResponse);
        case NotSaved =>
          return Refused(PersistenceUncertain);
        case Created(checkoutId, url) =>
          rows := rows[key := rows[key].(state := Open, checkoutId := Some(checkoutId), url := Some(url))];
          return Opened(checkoutId, url, false);
      }
    }

    /** A paid order of this checkout: nothing of it is left unresolved, and nothing else changes. */
    method CompleteCheckout(user: User, checkoutId: string)
      modifies this`rows
      ensures rows == Apply(Service(old(rows), map[]), Complete(user, checkoutId)).rows
      ensures forall k <- rows :: k.user == user && rows[k].checkoutId == Some(checkoutId) ==>
                !Unresolved(rows[k].state)
      ensures forall k <- old(rows) :: k in rows && (rows[k] == old(rows)[k]
                                                     || (k.user == user && rows[k].state == Completed
                                                                                 && Unresolved(old(rows)[k].state)))
      ensures OneUnresolved(old(rows)) ==> OneUnresolved(rows)
    {
      ghost var before := rows;
      var todo := rows.Keys;
      while todo != {}
        invariant todo <= rows.Keys == before.Keys
        invariant forall k <- rows :: rows[k] == if k in todo || k.user != user then before[k]
                                      else CompleteRow(before[k], checkoutId)
        decreases |todo|
      {
        var k :| k in todo;
        todo := todo - {k};
        if k.user == user && rows[k].checkoutId == Some(checkoutId)
           && rows[k].state in {Creating, Open, Ambiguous, Completed} {
          rows := rows[k := rows[k].(state := Completed)];
        }
      }
    }
  }
}
