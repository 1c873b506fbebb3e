/** The durable inbox that delivers provider events to their handlers under leases. */
module WebhookInbox {
  import opened Wrappers

  /** Event ids in the order of their text. */
  type EventId = nat
  type Owner = string
  type Time = nat

  /** What makes a delivery the same event: type, subject, provider timestamp and digest of the raw body. */
  datatype Identity = Identity(eventType: string, subject: string, createdAt: nat, digest: string)

  datatype State = Received | Processing | Processed | Ignored | Failed

  datatype Row = Row(
    identity: Identity, state: State, attempts: nat, owner: Option<Owner>, leaseUntil: Option<Time>,
    nextAttemptAt: Option<Time>, receivedAt: Time)

  type Rows = map<EventId, Row>

  datatype Config = Config(leaseMs: nat, retryBaseMs: nat, retryMaxMs: nat, maxAttempts: nat)

  /** One transaction of one worker; a crash is a worker that takes no further step. */
  datatype Step =
    | Receive(id: EventId, identity: Identity, now: Time)
    | Claim(id: EventId, owner: Owner, now: Time)
    | Commit(id: EventId, owner: Owner, now: Time)
    | Ignore(id: EventId, owner: Owner, now: Time)
    | Fail(id: EventId, owner: Owner, attempts: nat, retryable: bool, now: Time)
    | Requeue(id: EventId, now: Time)

  datatype Reception = Accepted(duplicate: bool, state: State) | IdentityReused

  function Pow2(n: nat): nat {
    if n == 0 then 1 else 2 * Pow2(n - 1)
  }

  function RetryDelay(c: Config, attempts: nat): nat {
    Min(c.retryMaxMs, c.retryBaseMs * Pow2(Min(Max(0, attempts - 1), 20)))
  }

  predicate Claimable(row: Row, now: Time) {
    match row.state
    case Received => true
    case Failed => row.nextAttemptAt.Some? && row.nextAttemptAt.value <= now
    case Processing => row.leaseUntil.Some? && row.leaseUntil.value <= now
    case _ => false
  }

  predicate Holds(rows: Rows, id: EventId, owner: Owner) {
    id in rows && rows[id].state == Processing && rows[id].owner == Some(owner)
  }

  function Released(row: Row, state: State, nextAttemptAt: Option<Time>): Row {
    row.(state := state, owner := None, leaseUntil := None, nextAttemptAt := nextAttemptAt)
  }

  function Claimed(row: Row, owner: Owner, until: Time): Row {
    row.(state := Processing, attempts := row.attempts + 1, owner := Some(owner), leaseUntil := Some(until),
         nextAttemptAt := None)
  }

  function NextAttempt(c: Config, attempts: nat, retryable: bool, now: Time): Option<Time> {
    if retryable && attempts < c.maxAttempts then Some(now + RetryDelay(c, attempts)) else None
  }

  function Apply(rows: Rows, s: Step, c: Config): Rows {
    match s
    case Receive(id, identity, now) => if id in rows then rows
                                       else rows[id := Row(identity, Received, 0, None, None, None, now)]
    case Claim(id, owner, now) =>
      if id in rows && Claimable(rows[id], now) then rows[id := Claimed(rows[id], owner, now + c.leaseMs)] else rows
    case Commit(id, owner, _) => if Holds(rows, id, owner) then rows[id := Released(rows[id], Processed, None)]
                                 else rows
    case Ignore(id, owner, _) => if Holds(rows, id, owner) then rows[id := Released(rows[id], Ignored, None)] else rows
    case Fail(id, owner, attempts, retryable, now) =>
      if Holds(rows, id, owner) then rows[id := Released(rows[id], Failed, NextAttempt(c, attempts, retryable, now))]
         else rows
    case Requeue(id, now) =>
      if id in rows && rows[id].state == Failed then rows[id := rows[id].(nextAttemptAt := Some(now))] else rows
  }

  function Run(rows: Rows, steps: seq<Step>, c: Config): Rows {
    if steps == [] then rows else Apply(Run(rows, steps[..|steps| - 1], c), steps[|steps| - 1], c)
  }

  // Effects.

  /** The handler's writes commit together with the row, and only if the worker still holds it. */
  function EffectOf(rows: Rows, s: Step, id: EventId): nat {
    if s.Commit? && s.id == id && Holds(rows, id, s.owner) then 1 else 0
  }

  function Effects(rows: Rows, steps: seq<Step>, c: Config, id: EventId): nat {
    if steps == [] then 0
    else Effects(rows, steps[..|steps| - 1], c, id)
         + EffectOf(Run(rows, steps[..|steps| - 1], c), steps[|steps| - 1], id)
  }

  predicate Final(rows: Rows, id: EventId) {
    id in rows && (rows[id].state == Processed || rows[id].state == Ignored)
  }

  lemma StepIsFinal(rows: Rows, s: Step, c: Config, id: EventId)
    ensures Final(rows, id) ==> id in Apply(rows, s, c) && Apply(rows, s, c)[id] == rows[id]
                                && EffectOf(rows, s, id) == 0
    ensures (id in Apply(rows, s, c) && Apply(rows, s, c)[id].state == Processed)
            <==> (id in rows && rows[id].state == Processed) || EffectOf(rows, s, id) == 1
  {
  }

  /** PROCESSED and IGNORED rows never change again, in any interleaving of workers. */
  lemma {:induction false} FinalIsForever(rows: Rows, steps: seq<Step>, c: Config, id: EventId)
    requires Final(rows, id)
    ensures id in Run(rows, steps, c) && Run(rows, steps, c)[id] == rows[id] && Effects(rows, steps, c, id) == 0
  {
    if steps != [] {
      hide Apply, EffectOf;
      FinalIsForever(rows, steps[..|steps| - 1], c, id);
      StepIsFinal(Run(rows, steps[..|steps| - 1], c), steps[|steps| - 1], c, id);
    }
  }

  /** Whatever the workers, leases, crashes, failures and manual requeues: the handler's effect is committed at most
      once, and it was committed exactly when the event is PROCESSED. */
  lemma {:induction false} EffectExactlyWhenProcessed(steps: seq<Step>, c: Config, id: EventId)
    ensures var rows := Run(map[], steps, c);
            Effects(map[], steps, c, id) == if id in rows && rows[id].state == Processed then 1 else 0
  {
    if steps != [] {
      hide Apply, EffectOf;
      var before, s := steps[..|steps| - 1], steps[|steps| - 1];
      EffectExactlyWhenProcessed(before, c, id);
      EffectIsZeroOrOne(Run(map[], before, c), s, id);
      StepIsFinal(Run(map[], before, c), s, c, id);
    }
  }

  lemma EffectIsZeroOrOne(rows: Rows, s: Step, id: EventId)
    ensures EffectOf(rows, s, id) == 0 || EffectOf(rows, s, id) == 1
  {
  }

  // Leases.

  /** PROCESSING rows, and only those, have an owner and a lease; FAILED ones, and only those, may be scheduled. */
  ghost predicate WellFormed(rows: Rows) {
    forall id <- rows ::
      && (rows[id].state == Processing <==> rows[id].owner.Some?)
      && (rows[id].state == Processing <==> rows[id].leaseUntil.Some?)
      && (rows[id].nextAttemptAt.Some? ==> rows[id].state == Failed)
  }

  lemma {:induction false} RunIsWellFormed(steps: seq<Step>, c: Config)
    ensures WellFormed(Run(map[], steps, c))
  {
    if steps != [] {
      hide RetryDelay;
      RunIsWellFormed(steps[..|steps| - 1], c);
    }
  }

  /** A step of somebody else that happens before the lease runs out. */
  predicate Foreign(s: Step, id: EventId, owner: Owner, until: Time) {
    s.now < until && (s.id == id && (s.Commit? || s.Ignore? || s.Fail?) ==> s.owner != owner)
  }

  /** While a lease has not run out nobody but its owner can move the event: two workers never hold it at once. */
  lemma {:induction false} LeaseExcludesOthers(rows: Rows, steps: seq<Step>, c: Config, id: EventId, owner: Owner,
                                               until: Time)
    requires Holds(rows, id, owner) && rows[id].leaseUntil == Some(until)
    requires forall s <- steps :: Foreign(s, id, owner, until)
    ensures id in Run(rows, steps, c) && Run(rows, steps, c)[id] == rows[id]
  {
    if steps != [] {
      hide RetryDelay, NextAttempt;
      assert Foreign(steps[|steps| - 1], id, owner, until);
      LeaseExcludesOthers(rows, steps[..|steps| - 1], c, id, owner, until);
    }
  }

  // No event is lost.

  /** The first time at which a worker may claim the event: never for final ones, and for failed ones that are not
      scheduled. */
  function ClaimableFrom(row: Row): Option<Time> {
    match row.state
    case Received => Some(0)
    case Processing => row.leaseUntil
    case Failed => row.nextAttemptAt
    case _ => None
  }

  lemma {:induction false} ClaimableFromThenOn(steps: seq<Step>, c: Config, id: EventId, now: Time)
    requires id in Run(map[], steps, c)
    ensures var row := Run(map[], steps, c)[id];
            && (row.state == Received ==> Claimable(row, now))
            && (Claimable(row, now) <==> ClaimableFrom(row).Some? && ClaimableFrom(row).value <= now)
            && (ClaimableFrom(row).None? <==> Final(Run(map[], steps, c), id)
                                              || (row.state == Failed && row.nextAttemptAt.None?))
  {
    hide Run;
    RunIsWellFormed(steps, c);
  }

  /** A received event stays in the inbox with the identity it came with, and every other content under its id is
      refused. */
  lemma {:induction false} EventsStay(rows: Rows, steps: seq<Step>, c: Config, id: EventId)
    requires id in rows
    ensures var after := Run(rows, steps, c);
            && id in after && after[id].identity == rows[id].identity && after[id].receivedAt == rows[id].receivedAt
            && rows[id].attempts <= after[id].attempts
  {
    if steps != [] {
      hide RetryDelay, Claimable, Holds;
      EventsStay(rows, steps[..|steps| - 1], c, id);
    }
  }

  // Retries.

  lemma {:induction false} Pow2Grows(a: nat, b: nat)
    requires a <= b
    ensures 1 <= Pow2(a) <= Pow2(b)
  {
    if a < b {
      Pow2Grows(a, b - 1);
    } else if a > 0 {
      Pow2Grows(a - 1, a - 1);
    }
  }

  /** Back-off never shrinks from one attempt to the next and stays between the base and the ceiling. */
  lemma RetryDelayGrows(c: Config, attempts: nat, more: nat)
    requires attempts <= more
    ensures RetryDelay(c, attempts) <= RetryDelay(c, more) <= c.retryMaxMs
    ensures Min(c.retryBaseMs, c.retryMaxMs) <= RetryDelay(c, attempts)
  {
    var a, b := Min(Max(0, attempts - 1), 20), Min(Max(0, more - 1), 20);
    Pow2Grows(a, b);
    Pow2Grows(0, a);
    Scaled(c.retryBaseMs, Pow2(a), Pow2(b));
    Scaled(c.retryBaseMs, 1, Pow2(a));
  }

  lemma Scaled(x: nat, a: nat, b: nat)
    requires a <= b
    ensures x * a <= x * b
  {
  }

  /** After a failure no worker claims the event before its delay has passed, unless somebody requeues it; after the
      last attempt no worker claims it at all. */
  lemma {:induction false} FailureWaits(rows: Rows, steps: seq<Step>, c: Config, id: EventId, owner: Owner,
                                        attempts: nat, retryable: bool, now: Time)
    requires Holds(rows, id, owner)
    requires forall s <- steps :: !(s.Requeue? && s.id == id)
    requires retryable && attempts < c.maxAttempts ==> forall s <- steps :: s.now < now + RetryDelay(c, attempts)
    ensures var failed := Apply(rows, Fail(id, owner, attempts, retryable, now), c);
            id in Run(failed, steps, c) && Run(failed, steps, c)[id] == failed[id] && failed[id].state == Failed
  {
    if steps != [] {
      hide RetryDelay;
      var s := steps[|steps| - 1];
      assert s in steps;
      FailureWaits(rows, steps[..|steps| - 1], c, id, owner, attempts, retryable, now);
    }
  }

  /** The delay after the first attempt is the base; each attempt doubles it up to the twenty-first, and the ceiling
      cuts it off. */
  lemma RetryDelayDoubles(c: Config, attempts: nat)
    requires attempts > 0
    ensures RetryDelay(c, 1) == Min(c.retryMaxMs, c.retryBaseMs)
    ensures attempts <= 20 ==> RetryDelay(c, attempts + 1) == Min(c.retryMaxMs, 2 * RetryDelay(c, attempts))
    ensures attempts > 20 ==> RetryDelay(c, attempts + 1) == RetryDelay(c, attempts)
  {
    var p := Pow2(Min(attempts - 1, 20));
    assert Pow2(0) == 1;
    assert attempts <= 20 ==> Pow2(attempts) == 2 * p && c.retryBaseMs * (2 * p) == 2 * (c.retryBaseMs * p);
  }

  lemma {:induction false} OthersLeaveIt(rows: Rows, steps: seq<Step>, c: Config, id: EventId)
    requires id in rows && forall s <- steps :: s.id != id
    ensures id in Run(rows, steps, c) && Run(rows, steps, c)[id] == rows[id]
  {
    if steps != [] {
      hide RetryDelay, NextAttempt, Claimable;
      assert steps[|steps| - 1] in steps;
      OthersLeaveIt(rows, steps[..|steps| - 1], c, id);
    }
  }

  /** A failure that may be retried, before the last attempt, is: left alone, the event is claimable at every time from
      its delay on and at none before. Any other failure leaves it claimable at no time. */
  lemma FailureIsRetried(rows: Rows, steps: seq<Step>, c: Config, id: EventId, owner: Owner, attempts: nat,
                         retryable: bool, now: Time, t: Time)
    requires Holds(rows, id, owner) && forall s <- steps :: s.id != id
    ensures var after, delay := Run(Apply(rows, Fail(id, owner, attempts, retryable, now), c), steps, c),
                                RetryDelay(c, attempts);
            && id in after && after[id].attempts == rows[id].attempts
            && Min(c.retryBaseMs, c.retryMaxMs) <= delay <= c.retryMaxMs
            && (Claimable(after[id], t) <==> retryable && attempts < c.maxAttempts && now + delay <= t)
  {
    hide RetryDelay, Run;
    RetryDelayGrows(c, attempts, attempts);
    OthersLeaveIt(Apply(rows, Fail(id, owner, attempts, retryable, now), c), steps, c, id);
  }

  lemma {:induction false} RunFrom(rows: Rows, first: Step, steps: seq<Step>, c: Config, id: EventId)
    ensures Run(rows, [first] + steps, c) == Run(Apply(rows, first, c), steps, c)
    ensures Effects(rows, [first] + steps, c, id)
         == EffectOf(rows, first, id) + Effects(Apply(rows, first, c), steps, c, id)
  {
    hide Apply, EffectOf;
    var all := [first] + steps;
    if steps == [] {
      assert all == [first] && all[..0] == [];
      assert Run(rows, all[..0], c) == rows && Effects(rows, all[..0], c, id) == 0;
    } else {
      assert all[..|all| - 1] == [first] + steps[..|steps| - 1];
      RunFrom(rows, first, steps[..|steps| - 1], c, id);
    }
  }

  lemma RunTo(rows: Rows, steps: seq<Step>, last: Step, c: Config, id: EventId)
    ensures Run(rows, steps + [last], c) == Apply(Run(rows, steps, c), last, c)
    ensures Effects(rows, steps + [last], c, id)
         == Effects(rows, steps, c, id) + EffectOf(Run(rows, steps, c), last, id)
  {
    hide Apply, EffectOf;
    assert (steps + [last])[..|steps + [last]| - 1] == steps;
  }

  /** An event just received, due for a retry, or left behind by a worker whose lease ran out can be claimed by anybody;
      if its handler then commits before another worker takes the event over, its effect takes place. */
  lemma ClaimedIsDelivered(rows: Rows, steps: seq<Step>, c: Config, id: EventId, owner: Owner, now: Time, later: Time)
    requires id in rows && forall s <- steps :: s.id != id
    requires || rows[id].state == Received
             || (rows[id].state == Failed && rows[id].nextAttemptAt.Some? && rows[id].nextAttemptAt.value <= now)
             || (rows[id].state == Processing && rows[id].leaseUntil.Some? && rows[id].leaseUntil.value <= now)
    ensures var claimed := [Claim(id, owner, now)] + steps;
            var held, done := Run(rows, claimed, c), Run(rows, claimed + [Commit(id, owner, later)], c);
            && id in held && held[id].state == Processing && held[id].attempts == rows[id].attempts + 1
            && held[id].owner == Some(owner) && held[id].leaseUntil == Some(now + c.leaseMs)
            && id in done && done[id].state == Processed
            && Effects(rows, claimed + [Commit(id, owner, later)], c, id) == 1
  {
    hide Run, Effects, RetryDelay, NextAttempt;
    var claim := Claim(id, owner, now);
    RunFrom(rows, claim, steps, c, id);
    RunTo(rows, [claim] + steps, Commit(id, owner, later), c, id);
    OthersLeaveIt(Apply(rows, claim, c), steps, c, id);
    OthersHaveNoEffect(Apply(rows, claim, c), steps, c, id);
  }

  lemma {:induction false} OthersHaveNoEffect(rows: Rows, steps: seq<Step>, c: Config, id: EventId)
    requires forall s <- steps :: s.id != id
    ensures Effects(rows, steps, c, id) == 0
  {
    if steps != [] {
      assert steps[|steps| - 1] in steps;
      OthersHaveNoEffect(rows, steps[..|steps| - 1], c, id);
    }
  }

  // The inbox over its table.

  predicate Before(rows: Rows, a: EventId, b: EventId)
    requires a in rows && b in rows
  {
    rows[a].receivedAt < rows[b].receivedAt || (rows[a].receivedAt == rows[b].receivedAt && a <= b)
  }

  class Inbox {
    const config: Config
    var rows: Rows

    constructor (config: Config)
      ensures rows == map[] && this.config == config
    {
      this.config := config;
      rows := map[];
    }

    method ReceiveEvent(id: EventId, identity: Identity, now: Time) returns (r: Reception)
      modifies this
      ensures rows == Apply(old(rows), Receive(id, identity, now), config)
      ensures rows == if id in old(rows) then old(rows)
                      else old(rows)[id := Row(identity, Received, 0, None, None, None, now)]
      ensures r == if id !in old(rows) then Accepted(false, Received)
                   else if old(rows)[id].identity == identity then Accepted(true, old(rows)[id].state)
                   else IdentityReused
    {
      if id !in rows {
        rows := rows[id := Row(identity, Received, 0, None, None, None, now)];
        return Accepted(false, Received);
      }
      if rows[id].identity != identity {
        return IdentityReused;
      }
      return Accepted(true, rows[id].state);
    }

    /** Claims the oldest claimable event among those whose rows no other transaction has locked. */
    method ClaimNext(owner: Owner, locked: set<EventId>, now: Time) returns (claimed: Option<EventId>)
      modifies this
      ensures claimed.None? ==> rows == old(rows) && forall id <- old(rows) :: id !in locked ==>
                !Claimable(old(rows)[id], now)
      ensures claimed.Some? ==>
                var id := claimed.value;
                && id in old(rows) && id !in locked && Claimable(old(rows)[id], now)
                && rows == Apply(old(rows), Claim(id, owner, now), config) && Holds(rows, id, owner)
                && forall other <- old(rows) :: other !in locked && Claimable(old(rows)[other], now) ==>
                     || old(rows)[id].receivedAt < old(rows)[other].receivedAt
                     || (old(rows)[id].receivedAt == old(rows)[other].receivedAt && id <= other)
    {
      var todo := rows.Keys - locked;
      claimed := None;
      while todo != {}
        invariant todo <= rows.Keys - locked && rows == old(rows)
        invariant claimed.Some? ==> claimed.value in rows && claimed.value !in locked
                                    && Claimable(rows[claimed.value], now)
        invariant forall other <- rows :: other !in locked && other !in todo && Claimable(rows[other], now) ==>
                    claimed.Some? && Before(rows, claimed.value, other)
        decreases |todo|
      {
        var id :| id in todo;
        todo := todo - {id};
        if Claimable(rows[id], now) && (claimed.None? || Before(rows, id, claimed.value)) {
          claimed := Some(id);
        }
      }
      if claimed.Some? {
        var row := rows[claimed.value];
        rows := rows[claimed.value := row.(state := Processing, attempts := row.attempts + 1, owner := Some(owner),
                                           leaseUntil := Some(now + config.leaseMs), nextAttemptAt := None)];
      }
    }

    /** The handler's transaction: false means that the lease was lost and everything is rolled back. */
    method CommitEvent(id: EventId, owner: Owner, now: Time) returns (done: bool)
      modifies this
      ensures rows == Apply(old(rows), Commit(id, owner, now), config)
      ensures EffectOf(old(rows), Commit(id, owner, now), id) == if done then 1 else 0
    {
      if id !in rows || rows[id].state != Processing || rows[id].owner != Some(owner) {
        return false;
      }
      rows := rows[id := rows[id].(state := Processed, owner := None, leaseUntil := None, nextAttemptAt := None)];
      return true;
    }

    method MarkIgnored(id: EventId, owner: Owner, now: Time) returns (done: bool)
      modifies this
      ensures rows == Apply(old(rows), Ignore(id, owner, now), config) && done == Holds(old(rows), id, owner)
      ensures if done then id in rows && rows[id].state == Ignored && rows - {id} == old(rows) - {id}
              else rows == old(rows)
    {
      done := Holds(rows, id, owner);
      if done {
        rows := rows[id := rows[id].(state := Ignored, owner := None, leaseUntil := None, nextAttemptAt := None)];
      }
    }

    method MarkFailed(id: EventId, owner: Owner, attempts: nat, retryable: bool, now: Time) returns (done: bool)
      modifies this
      ensures rows == Apply(old(rows), Fail(id, owner, attempts, retryable, now), config)
              && done == Holds(old(rows), id, owner)
      ensures done ==> id in rows && rows[id].state == Failed
                       && (rows[id].nextAttemptAt.Some? <==> retryable && attempts < config.maxAttempts)
                       && (rows[id].nextAttemptAt.Some? ==>
                             now + Min(config.retryBaseMs, config.retryMaxMs) <= rows[id].nextAttemptAt.value
                             <= now + config.retryMaxMs)
    {
      RetryDelayGrows(config, attempts, attempts);
      var retryAt := None;
      if retryable && attempts < config.maxAttempts {
        retryAt := Some(now + RetryDelay(config, attempts));
      }
      done := Holds(rows, id, owner);
      if done {
        rows := rows[id := rows[id].(state := Failed, owner := None, leaseUntil := None, nextAttemptAt := retryAt)];
      }
    }

    method RequeueFailed(id: EventId, now: Time) returns (done: bool)
      modifies this
      ensures rows == Apply(old(rows), Requeue(id, now), config)
      ensures done == (id in old(rows) && old(rows)[id].state == Failed)
      ensures rows == if done then old(rows)[id := old(rows)[id].(nextAttemptAt := Some(now))] else old(rows)
    {
      done := id in rows && rows[id].state == Failed;
      if done {
        rows := rows[id := rows[id].(nextAttemptAt := Some(now))];
      }
    }
  }
}
