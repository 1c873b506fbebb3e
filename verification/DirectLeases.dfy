/** The pool of transport bots: one lease per installation, one INDEX operation per vault. */
module DirectLeases {
  import opened Wrappers

  type BotId = string
  type SessionId = string
  type Installation = string
  type ChatId = string
  type OpId = string
  type Time = nat

  datatype Bot = Bot(generation: nat, quarantined: bool, rotating: bool)

  datatype LeaseStatus = Assigning | Active | Stopping

  datatype Lease = Lease(bot: BotId, installation: Installation, chat: ChatId, generation: nat, status: LeaseStatus,
                         heartbeat: Time)

  datatype Kind = GetIndex | ReplaceIndex | Data

  /** The browser document behind a request: its tab and a number that grows with every reload. */
  datatype Document = Document(tab: string, generation: nat)

  /** `process` is the server process that last confirmed the operation, at `liveAt` on that process's clock. */
  datatype Operation = Operation(session: SessionId, chat: ChatId, kind: Kind, document: Option<Document>, process: nat,
                                 liveAt: Time)

  type Leases = map<SessionId, Lease>
  type Operations = map<OpId, Operation>

  /** The persisted state, the running process, and when it first saw operations confirmed by earlier processes. What is
      remembered of an operation that has ended is never looked at again: ids are not used twice. */
  datatype Pool = Pool(bots: map<BotId, Bot>, leases: Leases, operations: Operations, process: nat,
                       firstSeen: map<OpId, Time>)

  datatype Config = Config(indexTimeoutMs: nat, dataTimeoutMs: nat, heartbeatTimeoutMs: nat)

  datatype Step =
    | Prepare(bot: BotId, installation: Installation, chat: ChatId, session: SessionId)
    | Rollback(session: SessionId, bot: BotId, installation: Installation, chat: ChatId)
    | Finalize(session: SessionId)
    | Stop(session: SessionId)
    | Delete(session: SessionId)
    | Beat(session: SessionId)
    | Begin(op: OpId, session: SessionId, kind: Kind, document: Option<Document>)
    | Renew(op: OpId, session: SessionId, installation: Installation, generation: nat)
    | End(op: OpId, session: SessionId, installation: Installation, generation: nat)
    | Sweep
    | Flag(bot: BotId, quarantined: bool, rotating: bool)
    | Restart

  predicate IsIndex(op: Operation) {
    op.kind != Data
  }

  function Elapsed(now: Time, since: Time): nat {
    if now >= since then now - since else 0
  }

  // What every locked mutation starts with.

  /** Only bots of the configured pool keep leases; a bot seen for the first time starts at generation 0. */
  function Normalize(s: Pool, ids: set<BotId>): Pool {
    s.(bots := (map b | b in ids :: Bot(0, false, false)) + s.bots,
       leases := map l | l in s.leases && s.leases[l].bot in ids :: s.leases[l])
  }

  /** Operations of another process count from the moment this process first saw them. */
  function Seen(s: Pool, now: Time): map<OpId, Time> {
    (map o | o in s.operations && s.operations[o].process != s.process :: now) + s.firstSeen
  }

  function Timeout(c: Config, op: Operation): nat {
    if IsIndex(op) then c.indexTimeoutMs else c.dataTimeoutMs
  }

  function Age(s: Pool, id: OpId, now: Time): nat
    requires id in s.operations
  {
    var op := s.operations[id];
    Elapsed(now, if op.process == s.process then op.liveAt else if id in Seen(s, now) then Seen(s, now)[id] else now)
  }

  predicate Survives(s: Pool, id: OpId, c: Config, now: Time) {
    id in s.operations && s.operations[id].session in s.leases && Age(s, id, now) < Timeout(c, s.operations[id])
  }

  function Cleanup(s: Pool, c: Config, now: Time): Pool {
    s.(operations := map o | o in s.operations && Survives(s, o, c, now) :: s.operations[o],
       firstSeen := map o | o in Seen(s, now) && (o in s.operations ==> Survives(s, o, c, now)) :: Seen(s, now)[o])
  }

  function Locked(s: Pool, ids: set<BotId>, c: Config, now: Time): Pool {
    Cleanup(Normalize(s, ids), c, now)
  }

  // The mutations.

  function WithoutOf(operations: Operations, session: SessionId): Operations {
    map o | o in operations && operations[o].session != session :: operations[o]
  }

  function Retire(s: Pool, session: SessionId): Pool {
    s.(leases := s.leases - {session}, operations := WithoutOf(s.operations, session))
  }

  predicate OfInstallation(s: Pool, session: SessionId, installation: Installation) {
    session in s.leases && s.leases[session].installation == installation
  }

  /** The lease of an installation; the invariant says that there is at most one. */
  ghost function FindLease(s: Pool, installation: Installation): Option<SessionId> {
    if l :| OfInstallation(s, l, installation) then Some(l) else None
  }

  predicate Reusable(lease: Lease, bot: BotId, chat: ChatId, c: Config, now: Time) {
    && lease.chat == chat && lease.bot == bot && lease.status != Stopping
       && Elapsed(now, lease.heartbeat) < c.heartbeatTimeoutMs
  }

  function NewLease(s: Pool, bot: BotId, installation: Installation, chat: ChatId, session: SessionId, now: Time): Pool
    requires bot in s.bots
  {
    var generation := s.bots[bot].generation + 1;
    s.(bots := s.bots[bot := s.bots[bot].(generation := generation)],
       leases := s.leases[session := Lease(bot, installation, chat, generation, Assigning, now)])
  }

  predicate Admissible(s: Pool, ids: set<BotId>, bot: BotId) {
    bot in ids && bot in s.bots && !s.bots[bot].quarantined && !s.bots[bot].rotating
  }

  ghost function PrepareLease(s: Pool, bot: BotId, installation: Installation, chat: ChatId, session: SessionId,
                              c: Config, now: Time): Pool
    requires bot in s.bots
  {
    var found := FindLease(s, installation);
    if found.Some? && Reusable(s.leases[found.value], bot, chat, c, now) then Touch(s, found.value, now)
    else NewLease(if found.Some? then Retire(s, found.value) else s, bot, installation, chat, session, now)
  }

  function Touch(s: Pool, session: SessionId, now: Time): Pool {
    if session in s.leases then s.(leases := s.leases[session := s.leases[session].(heartbeat := now)]) else s
  }

  predicate Checked(s: Pool, session: SessionId, installation: Installation, generation: nat) {
    session in s.leases && s.leases[session].installation == installation && s.leases[session].generation == generation
  }

  /** A later document of the same tab and session takes over the INDEX operation its predecessor left behind. */
  predicate Superseded(op: Operation, session: SessionId, chat: ChatId, document: Option<Document>) {
    && document.Some? && IsIndex(op) && op.chat == chat && op.session == session
    && op.document.Some? && op.document.value.tab == document.value.tab
       && 0 < op.document.value.generation < document.value.generation
  }

  function WithoutSuperseded(s: Pool, session: SessionId, chat: ChatId, document: Option<Document>): Pool {
    s.(operations := map o | o in s.operations && !Superseded(s.operations[o], session, chat, document) ::
         s.operations[o])
  }

  predicate Busy(s: Pool, chat: ChatId) {
    exists o <- s.operations :: IsIndex(s.operations[o]) && s.operations[o].chat == chat
  }

  function Admit(s: Pool, op: OpId, session: SessionId, kind: Kind, document: Option<Document>, now: Time): Pool
    requires session in s.leases
  {
    var chat := s.leases[session].chat;
    var cleared := if kind == Data then s else WithoutSuperseded(s, session, chat, document);
    if kind != Data && Busy(cleared, chat) then cleared
    else
      var begun := Operation(session, chat, kind, document, s.process, now);
      Touch(cleared, session, now).(operations := cleared.operations[op := begun])
  }

  function Confirm(s: Pool, op: OpId, session: SessionId, now: Time): Pool
    requires op in s.operations
  {
    var confirmed := s.operations[op].(process := s.process, liveAt := now);
    Touch(s, session, now).(operations := s.operations[op := confirmed], firstSeen := s.firstSeen - {op})
  }

  /** Ending an operation also shows that its tab is alive, if the lease is the one it was begun under. */
  function Conclude(s: Pool, op: OpId, session: SessionId, installation: Installation, generation: nat,
                    now: Time): Pool {
    var touched := if Checked(s, session, installation, generation) then Touch(s, session, now) else s;
    if op in s.operations && s.operations[op].session == session then touched.(operations := s.operations - {op})
       else touched
  }

  /** A mutation that is refused under the lock writes nothing, but this process has looked at the operations. */
  function Looked(s: Pool, now: Time): Pool {
    s.(firstSeen := Seen(s, now))
  }

  ghost function Apply(s: Pool, step: Step, ids: set<BotId>, c: Config, now: Time): Pool {
    var locked := Locked(s, ids, c, now);
    match step
    case Prepare(bot, installation, chat, session) =>
      if Admissible(locked, ids, bot) then PrepareLease(locked, bot, installation, chat, session, c, now)
      else Looked(s, now)
    case Rollback(session, bot, installation, chat) =>
      if session in locked.leases && locked.leases[session].bot == bot
         && locked.leases[session].installation == installation
         && locked.leases[session].chat == chat
      then Retire(locked, session) else locked
    case Finalize(session) =>
      if session in locked.leases
      then locked.(leases := locked.leases[session := locked.leases[session].(status := Active, heartbeat := now)])
      else locked
    case Stop(session) =>
      if session in locked.leases
         then locked.(leases := locked.leases[session := locked.leases[session].(status := Stopping)]) else locked
    case Delete(session) => if session in locked.leases then Retire(locked, session) else locked
    case Beat(session) => Touch(locked, session, now)
    case Begin(op, session, kind, document) =>
      if session in locked.leases then Admit(locked, op, session, kind, document, now) else locked
    case Renew(op, session, installation, generation) =>
      if Checked(locked, session, installation, generation) && op in locked.operations
         && locked.operations[op].session == session
      then Confirm(locked, op, session, now) else locked
    case End(op, session, installation, generation) => Conclude(locked, op, session, installation, generation, now)
    case Sweep => locked
    case Flag(bot, quarantined, rotating) =>
      if bot in locked.bots
         then locked.(bots := locked.bots[bot := locked.bots[bot].(quarantined := quarantined, rotating := rotating)])
         else locked
    case Restart => s.(process := s.process + 1, firstSeen := map[])
  }

  /** Session and operation ids are random, so they are new. */
  ghost predicate Fresh(s: Pool, step: Step) {
    && (step.Prepare? ==> step.session !in s.leases && forall o <- s.operations ::
          s.operations[o].session != step.session)
    && (step.Begin? ==> step.op !in s.operations && step.op !in s.firstSeen)
  }

  // The invariant.

  ghost predicate OneLeasePerInstallation(leases: Leases) {
    forall l, m | l in leases && m in leases && leases[l].installation == leases[m].installation :: l == m
  }

  ghost predicate GenerationsGrow(leases: Leases, bots: map<BotId, Bot>) {
    forall l <- leases :: leases[l].bot in bots && leases[l].generation <= bots[leases[l].bot].generation
  }

  ghost predicate GenerationsDiffer(leases: Leases) {
    forall l, m | l in leases && m in leases && leases[l].bot == leases[m].bot
                  && leases[l].generation == leases[m].generation :: l == m
  }

  ghost predicate OneIndexPerVault(operations: Operations) {
    forall o, p | o in operations && p in operations && IsIndex(operations[o]) && IsIndex(operations[p])
                  && operations[o].chat == operations[p].chat
      :: o == p
  }

  ghost predicate Invariant(s: Pool) {
    OneLeasePerInstallation(s.leases) && GenerationsGrow(s.leases, s.bots) && GenerationsDiffer(s.leases)
    && OneIndexPerVault(s.operations)
  }

  ghost predicate SameLease(a: Lease, b: Lease) {
    a.bot == b.bot && a.installation == b.installation && a.chat == b.chat && a.generation == b.generation
  }

  ghost predicate SameOperation(a: Operation, b: Operation) {
    a.session == b.session && a.kind == b.kind && a.chat == b.chat && a.document == b.document
  }

  /** `t` has no lease and no operation that `s` has not, and remembers every bot's generation. */
  ghost predicate Shrinks(s: Pool, t: Pool) {
    && (forall l <- t.leases :: l in s.leases && SameLease(t.leases[l], s.leases[l]))
    && (forall o <- t.operations :: o in s.operations && SameOperation(t.operations[o], s.operations[o]))
    && (forall b <- s.bots :: b in t.bots && t.bots[b].generation == s.bots[b].generation)
  }

  lemma ShrinkingKeeps(s: Pool, t: Pool)
    requires Invariant(s) && Shrinks(s, t)
    ensures Invariant(t)
  {
    hide Shrinks, OneLeasePerInstallation, GenerationsGrow, GenerationsDiffer, OneIndexPerVault;
    ShrinkingKeepsLeases(s, t);
    ShrinkingKeepsOperations(s, t);
  }

  lemma ShrinkingKeepsLeases(s: Pool, t: Pool)
    requires OneLeasePerInstallation(s.leases) && GenerationsGrow(s.leases, s.bots) && GenerationsDiffer(s.leases)
             && Shrinks(s, t)
    ensures OneLeasePerInstallation(t.leases) && GenerationsGrow(t.leases, t.bots) && GenerationsDiffer(t.leases)
  {
    hide SameOperation;
  }

  lemma ShrinkingKeepsOperations(s: Pool, t: Pool)
    requires OneIndexPerVault(s.operations) && Shrinks(s, t)
    ensures OneIndexPerVault(t.operations)
  {
    hide SameLease;
  }

  lemma LockedShrinks(s: Pool, ids: set<BotId>, c: Config, now: Time)
    ensures Shrinks(s, Locked(s, ids, c, now)) && Locked(s, ids, c, now).process == s.process
  {
    hide Survives, Seen;
  }

  lemma FindsTheLease(s: Pool, installation: Installation)
    requires OneLeasePerInstallation(s.leases)
    ensures match FindLease(s, installation)
            case Some(l) => OfInstallation(s, l, installation)
            case None => forall l <- s.leases :: s.leases[l].installation != installation
    ensures forall l :: OfInstallation(s, l, installation) ==> FindLease(s, installation) == Some(l)
  {
    if FindLease(s, installation).None? {
      forall l <- s.leases ensures s.leases[l].installation != installation {
        assert !OfInstallation(s, l, installation);
      }
    }
  }

  lemma NewLeaseKeeps(s: Pool, bot: BotId, installation: Installation, chat: ChatId, session: SessionId, now: Time)
    requires Invariant(s) && bot in s.bots && session !in s.leases && forall l <- s.leases ::
               s.leases[l].installation != installation
    ensures Invariant(NewLease(s, bot, installation, chat, session, now))
  {
  }

  lemma RetireShrinks(s: Pool, session: SessionId)
    ensures Shrinks(s, Retire(s, session))
  {
  }

  lemma {:induction false} PrepareKeeps(s: Pool, bot: BotId, installation: Installation, chat: ChatId,
                                        session: SessionId, c: Config, now: Time)
    requires Invariant(s) && bot in s.bots && session !in s.leases
    ensures Invariant(PrepareLease(s, bot, installation, chat, session, c, now))
  {
    hide Reusable, FindLease, NewLease, Invariant, WithoutOf;
    InvariantSays(s);
    FindsTheLease(s, installation);
    var found := FindLease(s, installation);
    if found.Some? && Reusable(s.leases[found.value], bot, chat, c, now) {
      ShrinkingKeeps(s, Touch(s, found.value, now));
    } else if found.Some? {
      RetireShrinks(s, found.value);
      ShrinkingKeeps(s, Retire(s, found.value));
      NewLeaseKeeps(Retire(s, found.value), bot, installation, chat, session, now);
    } else {
      NewLeaseKeeps(s, bot, installation, chat, session, now);
    }
  }

  lemma InvariantSays(s: Pool)
    requires Invariant(s)
    ensures OneLeasePerInstallation(s.leases)
  {
  }

  lemma AdmitKeeps(s: Pool, op: OpId, session: SessionId, kind: Kind, document: Option<Document>, now: Time)
    requires Invariant(s) && session in s.leases
    ensures Invariant(Admit(s, op, session, kind, document, now))
  {
    hide Superseded, Invariant;
    var chat := s.leases[session].chat;
    var cleared := if kind == Data then s else WithoutSuperseded(s, session, chat, document);
    ShrinkingKeeps(s, cleared);
    if kind == Data || !Busy(cleared, chat) {
      ShrinkingKeeps(cleared, Touch(cleared, session, now));
      AddOperationKeeps(Touch(cleared, session, now), op, Operation(session, chat, kind, document, s.process, now));
    }
  }

  lemma AddOperationKeeps(s: Pool, id: OpId, op: Operation)
    requires Invariant(s) && (IsIndex(op) ==> !Busy(s, op.chat))
    ensures Invariant(s.(operations := s.operations[id := op]))
  {
    hide OneLeasePerInstallation, GenerationsGrow, GenerationsDiffer;
  }

  lemma ConcludeShrinks(s: Pool, op: OpId, session: SessionId, installation: Installation, generation: nat, now: Time)
    ensures Shrinks(s, Conclude(s, op, session, installation, generation, now))
  {
    hide Checked;
  }

  lemma LeaseUpdateShrinks(s: Pool, session: SessionId, lease: Lease)
    requires session in s.leases && SameLease(lease, s.leases[session])
    ensures Shrinks(s, s.(leases := s.leases[session := lease]))
  {
  }

  lemma RenewShrinks(s: Pool, op: OpId, session: SessionId, now: Time)
    requires op in s.operations && session in s.leases
    ensures Shrinks(s, Confirm(s, op, session, now))
  {
  }

  lemma FlagShrinks(s: Pool, bot: BotId, flagged: Bot)
    requires bot in s.bots && flagged.generation == s.bots[bot].generation
    ensures Shrinks(s, s.(bots := s.bots[bot := flagged]))
  {
  }

  lemma SameShrinks(s: Pool, t: Pool)
    requires t.leases == s.leases && t.operations == s.operations && t.bots == s.bots
    ensures Shrinks(s, t)
  {
  }

  lemma {:induction false} OthersShrink(s: Pool, step: Step, ids: set<BotId>, c: Config, now: Time)
    requires !step.Prepare? && !step.Begin?
    ensures Shrinks(Locked(s, ids, c, now), Apply(s, step, ids, c, now)) || Shrinks(s, Apply(s, step, ids, c, now))
  {
    hide Locked, Retire, Conclude, Shrinks;
    var locked := Locked(s, ids, c, now);
    SameProcess(s, ids, c, now);
    SameShrinks(locked, locked);
    match step
    case Rollback(session, _, _, _) => RetireShrinks(locked, session);
    case Delete(session) => RetireShrinks(locked, session);
    case End(op, session, installation, generation) => ConcludeShrinks(locked, op, session, installation, generation,
                                                                       now);
    case Restart => SameShrinks(s, Apply(s, step, ids, c, now));
    case Flag(bot, quarantined, rotating) =>
      if bot in locked.bots {
        FlagShrinks(locked, bot, locked.bots[bot].(quarantined := quarantined, rotating := rotating));
      }
    case Renew(op, session, _, _) =>
      if op in locked.operations && session in locked.leases {
        RenewShrinks(locked, op, session, now);
      }
    case Finalize(session) =>
      if session in locked.leases {
        LeaseUpdateShrinks(locked, session, locked.leases[session].(status := Active, heartbeat := now));
      }
    case Stop(session) =>
      if session in locked.leases {
        LeaseUpdateShrinks(locked, session, locked.leases[session].(status := Stopping));
      }
    case Beat(session) =>
      if session in locked.leases {
        LeaseUpdateShrinks(locked, session, locked.leases[session].(heartbeat := now));
      }
    case _ =>
  }

  lemma SameProcess(s: Pool, ids: set<BotId>, c: Config, now: Time)
    ensures Locked(s, ids, c, now).process == s.process
  {
    hide Survives, Seen;
  }

  lemma {:induction false} StepKeeps(s: Pool, step: Step, ids: set<BotId>, c: Config, now: Time)
    requires Invariant(s) && Fresh(s, step)
    ensures Invariant(Apply(s, step, ids, c, now))
  {
    hide Locked, PrepareLease, Admit, Checked, Invariant;
    var locked := Locked(s, ids, c, now);
    LockedShrinks(s, ids, c, now);
    ShrinkingKeeps(s, locked);
    match step
    case Prepare(bot, installation, chat, session) =>
      if Admissible(locked, ids, bot) {
        PrepareKeeps(locked, bot, installation, chat, session, c, now);
      } else {
        SameShrinks(s, Looked(s, now));
        ShrinkingKeeps(s, Looked(s, now));
      }
    case Begin(op, session, kind, document) =>
      if session in locked.leases {
        AdmitKeeps(locked, op, session, kind, document, now);
      }
    case _ =>
      OthersShrink(s, step, ids, c, now);
      if Shrinks(locked, Apply(s, step, ids, c, now)) {
        ShrinkingKeeps(locked, Apply(s, step, ids, c, now));
      } else {
        ShrinkingKeeps(s, Apply(s, step, ids, c, now));
      }
  }

  // Runs.

  /** A step with the configured pool and the time at which it takes the lock. */
  datatype Event = Event(step: Step, ids: set<BotId>, now: Time)

  ghost function Run(s: Pool, events: seq<Event>, c: Config): Pool {
    if events == [] then s
    else Apply(Run(s, events[..|events| - 1], c), events[|events| - 1].step, events[|events| - 1].ids, c,
               events[|events| - 1].now)
  }

  ghost predicate FreshRun(s: Pool, events: seq<Event>, c: Config) {
    events != [] ==> FreshRun(s, events[..|events| - 1], c)
                     && Fresh(Run(s, events[..|events| - 1], c), events[|events| - 1].step)
  }

  const EMPTY := Pool(map[], map[], map[], 0, map[])

  /** In every reachable state: one lease per installation, distinct (bot, generation) pairs, one INDEX operation per
      vault. */
  lemma {:induction false} ReachableStatesAreExclusive(events: seq<Event>, c: Config)
    requires FreshRun(EMPTY, events, c)
    ensures Invariant(Run(EMPTY, events, c))
  {
    if events != [] {
      hide Apply, Invariant, Fresh;
      ReachableStatesAreExclusive(events[..|events| - 1], c);
      var e := events[|events| - 1];
      StepKeeps(Run(EMPTY, events[..|events| - 1], c), e.step, e.ids, c, e.now);
    }
  }

  // Who may displace an INDEX operation.

  /** A strictly newer document of the operation's own tab and session, its own end, or the loss of its lease. */
  ghost predicate TakenAway(s: Pool, op: OpId, e: Event, after: Pool)
    requires op in s.operations
  {
    var held := s.operations[op];
    || (e.step.Begin? && e.step.kind != Data && IsIndex(held) && e.step.session == held.session
        && e.step.document.Some? && held.document.Some?
        && e.step.document.value.tab == held.document.value.tab
           && held.document.value.generation < e.step.document.value.generation)
    || (e.step.End? && e.step.op == op && e.step.session == held.session)
    || held.session !in after.leases
  }

  /** The only reasons for which an operation may disappear. */
  ghost predicate Displaces(s: Pool, op: OpId, e: Event, after: Pool, c: Config)
    requires op in s.operations
  {
    TakenAway(s, op, e, after) || Timeout(c, s.operations[op]) <= Age(s, op, e.now)
  }

  lemma LockedRemoves(s: Pool, ids: set<BotId>, c: Config, now: Time, op: OpId)
    requires op in s.operations
    ensures var locked := Locked(s, ids, c, now);
            if op in locked.operations then locked.operations[op] == s.operations[op]
            else s.operations[op].session !in locked.leases || Timeout(c, s.operations[op]) <= Age(s, op, now)
  {
    hide Timeout;
    assert Seen(Normalize(s, ids), now) == Seen(s, now);
  }

  /** Apart from the lease a Prepare creates, a step has the leases of the locked state, or changes nothing that
      matters. */
  lemma LeasesAfter(s: Pool, step: Step, ids: set<BotId>, c: Config, now: Time, session: SessionId)
    requires !(step.Prepare? && step.session == session) && !step.Restart?
    ensures var after := Apply(s, step, ids, c, now);
            after == Looked(s, now) || (session in after.leases ==> session in Locked(s, ids, c, now).leases)
  {
    hide Locked, Reusable, Superseded, Checked, Busy, WithoutOf, Seen;
  }

  lemma PrepareDisplaces(s: Pool, bot: BotId, installation: Installation, chat: ChatId, session: SessionId, c: Config,
                         now: Time, op: OpId)
    requires bot in s.bots && op in s.operations && s.operations[op].session != session
    ensures var after := PrepareLease(s, bot, installation, chat, session, c, now);
            if op in after.operations then after.operations[op] == s.operations[op]
               else s.operations[op].session !in after.leases
  {
    hide Reusable, FindLease;
  }

  lemma BeginDisplaces(s: Pool, op: OpId, session: SessionId, kind: Kind, document: Option<Document>, now: Time,
                       held: OpId)
    requires session in s.leases && held in s.operations && held != op
    ensures held !in Admit(s, op, session, kind, document, now).operations ==>
              kind != Data && Superseded(s.operations[held], session, s.leases[session].chat, document)
  {
    hide Superseded, Busy;
  }

  /** A held operation disappears only because a strictly newer document of its own tab and session begins an INDEX
      operation, because it is ended, because its lease is gone, or because nothing has confirmed it for its whole
      timeout. */
  lemma {:induction false} OperationIsDisplaced(s: Pool, e: Event, c: Config, op: OpId)
    requires Fresh(s, e.step) && op in s.operations && op !in Apply(s, e.step, e.ids, c, e.now).operations
    ensures Displaces(s, op, e, Apply(s, e.step, e.ids, c, e.now), c)
  {
    hide Locked, PrepareLease, Admit, Checked, Timeout, Age;
    var locked, after := Locked(s, e.ids, c, e.now), Apply(s, e.step, e.ids, c, e.now);
    LockedRemoves(s, e.ids, c, e.now, op);
    if op !in locked.operations {
      if !e.step.Restart? {
        LeasesAfter(s, e.step, e.ids, c, e.now, s.operations[op].session);
      }
    } else {
      match e.step
      case Prepare(bot, installation, chat, session) =>
        if Admissible(locked, e.ids, bot) {
          PrepareDisplaces(locked, bot, installation, chat, session, c, e.now, op);
        }
      case Begin(started, session, kind, document) =>
        if session in locked.leases {
          BeginDisplaces(locked, started, session, kind, document, e.now, op);
        }
      case _ =>
    }
  }

  /** The step at which an operation that is gone at the end went first. */
  lemma {:induction false} FirstWithout(s: Pool, events: seq<Event>, c: Config, op: OpId) returns (i: nat)
    requires op in s.operations && op !in Run(s, events, c).operations
    ensures i < |events| && op !in Run(s, events[..i + 1], c).operations
    ensures forall k | 0 <= k <= i :: op in Run(s, events[..i][..k], c).operations
    ensures op in Run(s, events[..i], c).operations
  {
    hide Apply;
    i := 0;
    assert events[..0] == [] && events[..|events|] == events;
    while op in Run(s, events[..i + 1], c).operations
      invariant 0 <= i < |events|
      invariant forall k | 0 <= k <= i :: op in Run(s, events[..k], c).operations
      decreases |events| - i
    {
      i := i + 1;
    }
    forall k | 0 <= k <= i
      ensures op in Run(s, events[..i][..k], c).operations
    {
      assert events[..i][..k] == events[..k];
    }
  }

  lemma {:induction false} FreshPrefix(s: Pool, events: seq<Event>, c: Config, n: nat)
    requires n <= |events| && FreshRun(s, events, c)
    ensures FreshRun(s, events[..n], c)
    decreases |events| - n
  {
    if n < |events| {
      hide Apply, Fresh;
      FreshPrefix(s, events, c, n + 1);
      assert events[..n + 1][..n] == events[..n];
    } else {
      assert events[..n] == events;
    }
  }

  /** Along a run, an operation that has gone was displaced at one of the steps. */
  lemma {:induction false} HeldUntilDisplaced(s: Pool, events: seq<Event>, c: Config, op: OpId)
    requires FreshRun(s, events, c) && op in s.operations && op !in Run(s, events, c).operations
    ensures exists i | 0 <= i < |events| ::
              op in Run(s, events[..i], c).operations && Displaces(Run(s, events[..i], c), op, events[i],
                                                                   Run(s, events[..i + 1], c), c)
  {
    hide Apply, Displaces, Fresh;
    var i := FirstWithout(s, events, c, op);
    FreshPrefix(s, events, c, i + 1);
    assert events[..i + 1][..i] == events[..i] && events[..i + 1][i] == events[i];
    OperationIsDisplaced(Run(s, events[..i], c), events[i], c, op);
  }

  /** An operation confirmed by the running process less than its timeout ago is not swept. */
  lemma ConfirmedIsNotSwept(s: Pool, ids: set<BotId>, c: Config, now: Time, op: OpId)
    requires op in s.operations && s.operations[op].session in s.leases && s.leases[s.operations[op].session].bot in ids
    requires s.operations[op].process == s.process
             && Elapsed(now, s.operations[op].liveAt) < Timeout(c, s.operations[op])
    ensures op in Locked(s, ids, c, now).operations
  {
  }

  /** Whatever this state knows of the operation's confirmation dates from `t` or later. */
  ghost predicate LiveSince(s: Pool, op: OpId, t: Time) {
    && op in s.operations && s.operations[op].process <= s.process
    && (s.operations[op].process == s.process ==> t <= s.operations[op].liveAt)
    && (s.operations[op].process < s.process && op in s.firstSeen ==> t <= s.firstSeen[op])
  }

  lemma LockedStaysLive(s: Pool, ids: set<BotId>, c: Config, now: Time, op: OpId, t: Time)
    requires LiveSince(s, op, t) && t <= now && op in Locked(s, ids, c, now).operations
    ensures LiveSince(Locked(s, ids, c, now), op, t)
    ensures Locked(s, ids, c, now).operations[op] == s.operations[op]
  {
    hide Survives;
  }

  /** The operation and what is known of its confirmation are the same in both. */
  ghost predicate Unmoved(s: Pool, after: Pool, op: OpId) {
    && op in s.operations && after.process == s.process && after.firstSeen == s.firstSeen
    && (op in after.operations ==> after.operations[op] == s.operations[op])
  }

  lemma PrepareUnmoved(s: Pool, bot: BotId, installation: Installation, chat: ChatId, session: SessionId, c: Config,
                       now: Time, op: OpId)
    requires bot in s.bots && op in s.operations
    ensures Unmoved(s, PrepareLease(s, bot, installation, chat, session, c, now), op)
  {
    hide Reusable, FindLease;
  }

  lemma BeginUnmoved(s: Pool, op: OpId, session: SessionId, kind: Kind, document: Option<Document>, now: Time,
                     held: OpId)
    requires session in s.leases && held in s.operations && held != op
    ensures Unmoved(s, Admit(s, op, session, kind, document, now), held)
  {
    hide Superseded, Busy;
  }

  lemma {:induction false} OthersUnmoved(s: Pool, e: Event, c: Config, op: OpId)
    requires !e.step.Prepare? && !e.step.Begin? && !e.step.Restart? && !(e.step.Renew? && e.step.op == op)
    requires op in Locked(s, e.ids, c, e.now).operations
    ensures Unmoved(Locked(s, e.ids, c, e.now), Apply(s, e.step, e.ids, c, e.now), op)
            || (e.step.Renew? && LiveElsewhere(Locked(s, e.ids, c, e.now), Apply(s, e.step, e.ids, c, e.now), op))
  {
    hide Locked, Checked;
  }

  /** Only what is remembered of another operation is dropped. */
  ghost predicate LiveElsewhere(s: Pool, after: Pool, op: OpId) {
    && op in s.operations && after.process == s.process && op in after.operations
       && after.operations[op] == s.operations[op]
    && (op in after.firstSeen ==> op in s.firstSeen && after.firstSeen[op] == s.firstSeen[op])
  }

  lemma {:induction false} RenewMoves(s: Pool, e: Event, c: Config, op: OpId, t: Time)
    requires e.step.Renew? && e.step.op == op && t <= e.now && LiveSince(Locked(s, e.ids, c, e.now), op, t)
    ensures var after := Apply(s, e.step, e.ids, c, e.now);
            LiveSince(after, op, t) && SameOperation(after.operations[op], Locked(s, e.ids, c, e.now).operations[op])
  {
    hide Locked, Checked;
    LockedShrinks(s, e.ids, c, e.now);
  }

  lemma LookingStaysLive(s: Pool, op: OpId, t: Time, now: Time)
    requires LiveSince(s, op, t) && t <= now
    ensures LiveSince(Looked(s, now), op, t)
  {
  }

  /** No step makes a confirmation look older than it is; a restart forgets it, and the next process starts anew. */
  lemma {:induction false} StaysLive(s: Pool, e: Event, c: Config, op: OpId, t: Time)
    requires LiveSince(s, op, t) && t <= e.now && Fresh(s, e.step) && op in Apply(s, e.step, e.ids, c, e.now).operations
    ensures var after := Apply(s, e.step, e.ids, c, e.now);
            LiveSince(after, op, t) && SameOperation(after.operations[op], s.operations[op])
  {
    hide Locked, PrepareLease, Admit, Checked, Seen;
    var locked := Locked(s, e.ids, c, e.now);
    LockedRemoves(s, e.ids, c, e.now, op);
    LockedShrinks(s, e.ids, c, e.now);
    LookingStaysLive(s, op, t, e.now);
    if op in locked.operations {
      LockedStaysLive(s, e.ids, c, e.now, op, t);
      match e.step
      case Restart =>
      case Prepare(bot, installation, chat, session) =>
        if Admissible(locked, e.ids, bot) {
          PrepareUnmoved(locked, bot, installation, chat, session, c, e.now, op);
        }
      case Begin(started, session, kind, document) =>
        if session in locked.leases {
          BeginUnmoved(locked, started, session, kind, document, e.now, op);
        }
      case Renew(renewed, _, _, _) =>
        if renewed == op {
          RenewMoves(s, e, c, op, t);
        } else {
          OthersUnmoved(s, e, c, op);
        }
      case _ => OthersUnmoved(s, e, c, op);
    } else {
      GoneAfterLock(s, e, c, op);
    }
  }

  /** What the lock reaps is only back if the step was refused. */
  lemma {:induction false} GoneAfterLock(s: Pool, e: Event, c: Config, op: OpId)
    requires op in s.operations && op !in Locked(s, e.ids, c, e.now).operations && Fresh(s, e.step)
    ensures var after := Apply(s, e.step, e.ids, c, e.now);
            op in after.operations ==> e.step.Restart? || (e.step.Prepare? && after == Looked(s, e.now))
  {
    hide Locked, Reusable, Superseded, Busy, FindLease, Checked, Seen;
  }

  lemma {:induction false} StaysLiveAlong(s: Pool, events: seq<Event>, c: Config, op: OpId, t: Time)
    requires LiveSince(s, op, t) && FreshRun(s, events, c) && forall e <- events :: t <= e.now
    requires forall i | 0 <= i <= |events| :: op in Run(s, events[..i], c).operations
    ensures LiveSince(Run(s, events, c), op, t) && SameOperation(Run(s, events, c).operations[op], s.operations[op])
  {
    if events != [] {
      hide Apply, LiveSince, Fresh;
      var n := |events| - 1;
      assert events[n] in events && events[..|events|] == events;
      assert forall i | 0 <= i <= n :: events[..n][..i] == events[..i];
      StaysLiveAlong(s, events[..n], c, op, t);
      StaysLive(Run(s, events[..n], c), events[n], c, op, t);
    }
  }

  lemma {:induction false} HeldWhileLive(s: Pool, events: seq<Event>, c: Config, op: OpId, t: Time)
    requires LiveSince(s, op, t) && FreshRun(s, events, c) && (forall e <- events :: t <= e.now)
    requires op !in Run(s, events, c).operations
    ensures exists i | 0 <= i < |events| ::
              var before := Run(s, events[..i], c);
              op in before.operations && (TakenAway(before, op, events[i], Run(s, events[..i + 1], c))
                                          || t + Timeout(c, s.operations[op]) <= events[i].now)
  {
    hide Apply, TakenAway, Fresh, Age, Timeout;
    var i := FirstWithout(s, events, c, op);
    var before := Run(s, events[..i], c);
    FreshPrefix(s, events, c, i);
    StaysLiveAlong(s, events[..i], c, op, t);
    FreshPrefix(s, events, c, i + 1);
    assert events[..i + 1][..i] == events[..i] && events[..i + 1][i] == events[i];
    OperationIsDisplaced(before, events[i], c, op);
    assert events[i] in events;
    SameTimeout(c, before.operations[op], s.operations[op]);
    if Timeout(c, before.operations[op]) <= Age(before, op, events[i].now) {
      LiveIsYoung(before, c, op, t, events[i].now);
    }
  }

  lemma LiveIsYoung(s: Pool, c: Config, op: OpId, t: Time, now: Time)
    requires LiveSince(s, op, t) && t <= now && Timeout(c, s.operations[op]) <= Age(s, op, now)
    ensures t + Timeout(c, s.operations[op]) <= now
  {
    hide Timeout;
  }

  lemma SameTimeout(c: Config, a: Operation, b: Operation)
    requires SameOperation(a, b)
    ensures Timeout(c, a) == Timeout(c, b)
  {
  }

  /** Beginning and renewing an operation confirm it. */
  lemma RenewConfirms(s: Pool, e: Event, c: Config, op: OpId)
    requires Fresh(s, e.step) && op in Apply(s, e.step, e.ids, c, e.now).operations
    requires (e.step.Begin? && e.step.op == op)
             || (e.step.Renew? && e.step.op == op && op in s.operations && s.operations[op].session == e.step.session
                 && Checked(Locked(s, e.ids, c, e.now), e.step.session, e.step.installation, e.step.generation))
    ensures LiveSince(Apply(s, e.step, e.ids, c, e.now), op, e.now)
  {
    hide Locked, Superseded, Busy;
    LockedShrinks(s, e.ids, c, e.now);
    if op in s.operations {
      LockedRemoves(s, e.ids, c, e.now, op);
      if op !in Locked(s, e.ids, c, e.now).operations {
        GoneAfterLock(s, e, c, op);
      }
    }
  }

  /** An operation begun or renewed at some step is held through every later run, restarts included: it goes only when
      it is taken away, or at a step no earlier than that one's time plus its timeout. */
  lemma {:induction false} ConfirmedIsHeld(s: Pool, e: Event, events: seq<Event>, c: Config, op: OpId)
    requires Fresh(s, e.step) && op in Apply(s, e.step, e.ids, c, e.now).operations
    requires (e.step.Begin? && e.step.op == op)
             || (e.step.Renew? && e.step.op == op && op in s.operations && s.operations[op].session == e.step.session
                 && Checked(Locked(s, e.ids, c, e.now), e.step.session, e.step.installation, e.step.generation))
    requires FreshRun(Apply(s, e.step, e.ids, c, e.now), events, c) && forall later <- events :: e.now <= later.now
    requires op !in Run(Apply(s, e.step, e.ids, c, e.now), events, c).operations
    ensures var held := Apply(s, e.step, e.ids, c, e.now);
            exists i | 0 <= i < |events| ::
              var before := Run(held, events[..i], c);
              op in before.operations && (TakenAway(before, op, events[i], Run(held, events[..i + 1], c))
                                          || e.now + Timeout(c, held.operations[op]) <= events[i].now)
  {
    hide Apply, Run, FreshRun, Locked, Checked, TakenAway, Fresh, Timeout;
    RenewConfirms(s, e, c, op);
    var held := Apply(s, e.step, e.ids, c, e.now);
    HeldWhileLive(held, events, c, op, e.now);
    var i :| 0 <= i < |events| && var before := Run(held, events[..i], c);
             op in before.operations && (TakenAway(before, op, events[i], Run(held, events[..i + 1], c))
                                         || e.now + Timeout(c, held.operations[op]) <= events[i].now);
  }

  /** A late request of an older document, or of another tab or session, waits while the vault's INDEX is taken. */
  lemma OlderDocumentsWait(s: Pool, op: OpId, session: SessionId, kind: Kind, document: Option<Document>, now: Time,
                           held: OpId)
    requires session in s.leases && kind != Data && held in s.operations && op !in s.operations
    requires IsIndex(s.operations[held]) && s.operations[held].chat == s.leases[session].chat
    requires !Superseded(s.operations[held], session, s.leases[session].chat, document)
    ensures op !in Admit(s, op, session, kind, document, now).operations
  {
    hide Superseded;
    assert held in WithoutSuperseded(s, session, s.leases[session].chat, document).operations;
  }

  /** A request under a live lease is admitted exactly if it is about data, or if every INDEX operation of its vault is
      left from an earlier document of its own tab; it then stands as the session's own, confirmed now. */
  lemma AdmittedExactly(s: Pool, op: OpId, session: SessionId, kind: Kind, document: Option<Document>, now: Time)
    requires session in s.leases && op !in s.operations
    ensures var after := Admit(s, op, session, kind, document, now);
            && (op in after.operations <==>
                  kind == Data
                  || forall o <- s.operations :: s.operations[o].chat == s.leases[session].chat
                                                 && s.operations[o].kind != Data ==>
                       && document.Some? && s.operations[o].document.Some? && s.operations[o].session == session
                       && s.operations[o].document.value.tab == document.value.tab
                       && 0 < s.operations[o].document.value.generation < document.value.generation)
            && (op in after.operations ==>
                  && after.operations[op] == Operation(session, s.leases[session].chat, kind, document, s.process, now)
                  && session in after.leases && after.leases[session].heartbeat == now)
  {
    var chat := s.leases[session].chat;
    var cleared := WithoutSuperseded(s, session, chat, document);
    if Busy(cleared, chat) {
      var o :| o in cleared.operations && IsIndex(cleared.operations[o]) && cleared.operations[o].chat == chat;
      assert o in s.operations && !Superseded(s.operations[o], session, chat, document);
    } else {
      forall o <- s.operations | s.operations[o].chat == chat && s.operations[o].kind != Data
        ensures Superseded(s.operations[o], session, chat, document)
      {
        assert o in cleared.operations ==> Busy(cleared, chat);
      }
    }
  }

  /** Ended by its own session, under whatever lease it presents, an operation is gone and nothing else is; ended by any
      other, it stays. Its vault's INDEX is then free for whoever waits. */
  lemma EndedExactly(s: Pool, op: OpId, session: SessionId, installation: Installation, generation: nat, now: Time)
    requires op in s.operations
    ensures var after := Conclude(s, op, session, installation, generation, now);
            && (op in after.operations <==> s.operations[op].session != session)
            && (forall o <- s.operations :: o != op ==> o in after.operations && after.operations[o] == s.operations[o])
            && (if session in s.leases && s.leases[session].installation == installation
                   && s.leases[session].generation == generation
                then after.leases == s.leases[session := s.leases[session].(heartbeat := now)]
                else after.leases == s.leases)
  {
  }

  /** From when on an operation counts as unconfirmed: its confirmation by the running process, or the moment this
      process first saw it. */
  ghost function Since(s: Pool, op: OpId, now: Time): Time
    requires op in s.operations
  {
    if s.operations[op].process == s.process then s.operations[op].liveAt
    else if op in s.firstSeen then s.firstSeen[op] else now
  }

  /** Taking the lock drops exactly the leases of bots outside the pool, and exactly the operations without a lease or
      unconfirmed for their whole timeout; it remembers since when it has seen the others. */
  lemma SweptExactly(s: Pool, ids: set<BotId>, c: Config, now: Time, op: OpId)
    requires op in s.operations
    ensures var after, o := Locked(s, ids, c, now), s.operations[op];
            var timeout := if o.kind == Data then c.dataTimeoutMs else c.indexTimeoutMs;
            && (op in after.operations <==> o.session in s.leases && s.leases[o.session].bot in ids
                                            && 0 < timeout && now < Since(s, op, now) + timeout)
            && (op in after.operations ==> after.operations[op] == o && Since(after, op, now) == Since(s, op, now))
            && (op in after.operations && o.process != s.process ==> op in after.firstSeen)
            && (forall l :: l in after.leases <==> l in s.leases && s.leases[l].bot in ids)
            && (forall l <- after.leases :: after.leases[l] == s.leases[l])
            && forall b <- ids :: b in after.bots && after.bots[b] == if b in s.bots then s.bots[b]
                                                                      else Bot(0, false, false)
  {
  }

  /** A session that keeps silent gives its operation up: at any lock a full timeout after both its confirmation and the
      first look of the running process, it is gone. */
  lemma SilentIsSwept(s: Pool, ids: set<BotId>, c: Config, first: Time, now: Time, op: OpId)
    requires op in s.operations && first <= now
    requires s.operations[op].process == s.process ==> s.operations[op].liveAt <= first
    requires op in s.firstSeen ==> s.firstSeen[op] <= first
    requires var o := s.operations[op]; first + (if o.kind == Data then c.dataTimeoutMs else c.indexTimeoutMs) <= now
    ensures op !in Locked(Locked(s, ids, c, first), ids, c, now).operations
  {
    hide Locked, Seen;
    SweptExactly(s, ids, c, first, op);
    var seen := Locked(s, ids, c, first);
    SameProcess(s, ids, c, first);
    if op in seen.operations {
      SweptExactly(seen, ids, c, now, op);
    } else {
      StaysSwept(seen, ids, c, now, op);
    }
  }

  lemma StaysSwept(s: Pool, ids: set<BotId>, c: Config, now: Time, op: OpId)
    requires op !in s.operations
    ensures op !in Locked(s, ids, c, now).operations
  {
  }

  /** Preparing a lease on an admissible bot: the installation's lease is kept, and confirmed, exactly if it is for the
      same vault and bot, not stopping and confirmed within the timeout; otherwise it is retired with all its
      operations and a new one takes its place. A bot outside the pool, quarantined or rotating gets none. */
  lemma PrepareExactly(s: Pool, bot: BotId, installation: Installation, chat: ChatId, session: SessionId,
                       ids: set<BotId>, c: Config, now: Time, held: SessionId)
    requires Invariant(Locked(s, ids, c, now)) && session !in s.leases
    ensures var locked := Locked(s, ids, c, now);
            var after := Apply(s, Prepare(bot, installation, chat, session), ids, c, now);
            var admissible := bot in ids && !locked.bots[bot].quarantined && !locked.bots[bot].rotating;
            && (!admissible ==> after == s.(firstSeen := after.firstSeen))
            && (admissible && held in locked.leases && locked.leases[held].installation == installation ==>
                  var lease := locked.leases[held];
                  if lease.chat == chat && lease.bot == bot && lease.status != Stopping
                     && 0 < c.heartbeatTimeoutMs && now < lease.heartbeat + c.heartbeatTimeoutMs
                  then after == locked.(leases := locked.leases[held := lease.(heartbeat := now)])
                  else
                    && held !in after.leases && session in after.leases
                    && (forall o :: o in after.operations <==> o in locked.operations
                                                               && locked.operations[o].session != held)
                    && after.leases[session] == Lease(bot, installation, chat, locked.bots[bot].generation + 1,
                                                      Assigning, now))
            && (admissible && (forall l <- locked.leases :: locked.leases[l].installation != installation) ==>
                  && session in after.leases && after.operations == locked.operations
                  && after.leases[session] == Lease(bot, installation, chat, locked.bots[bot].generation + 1,
                                                    Assigning, now))
  {
    hide Locked, Invariant, FindLease, Seen;
    var locked := Locked(s, ids, c, now);
    InvariantSays(locked);
    FindsTheLease(locked, installation);
    LockedShrinks(s, ids, c, now);
    PoolIsKnown(s, ids, c, now, bot);
    if held in locked.leases && locked.leases[held].installation == installation {
      assert OfInstallation(locked, held, installation);
    }
  }

  lemma PoolIsKnown(s: Pool, ids: set<BotId>, c: Config, now: Time, bot: BotId)
    ensures bot in ids ==> bot in Locked(s, ids, c, now).bots
  {
  }

  /** Renewing confirms operation and lease for the session, installation and generation they were made for, and
      otherwise does no more than the lock does. */
  lemma RenewedExactly(s: Pool, op: OpId, session: SessionId, installation: Installation, generation: nat,
                       ids: set<BotId>, c: Config, now: Time)
    ensures var locked, after := Locked(s, ids, c, now),
                                 Apply(s, Renew(op, session, installation, generation), ids, c, now);
            if session in locked.leases && locked.leases[session].installation == installation
               && locked.leases[session].generation == generation && op in locked.operations
               && locked.operations[op].session == session
            then && after.operations == locked.operations[op := locked.operations[op].(process := locked.process,
                                                                                       liveAt := now)]
                 && after.leases == locked.leases[session := locked.leases[session].(heartbeat := now)]
                 && op !in after.firstSeen
            else after == locked
  {
    hide Locked;
  }

  /** The rest of a lease's life, on the locked state: finalized it is active and confirmed, a heartbeat confirms it, a
      stopped one is stopping and so never reused, a deleted one and a rolled back one are gone with their
      operations. */
  lemma LifeExactly(s: Pool, session: SessionId, ids: set<BotId>, c: Config, now: Time)
    requires session in Locked(s, ids, c, now).leases
    ensures var locked := Locked(s, ids, c, now);
            var lease := locked.leases[session];
            && Apply(s, Finalize(session), ids, c, now)
               == locked.(leases := locked.leases[session := lease.(status := Active, heartbeat := now)])
            && Apply(s, Beat(session), ids, c, now)
               == locked.(leases := locked.leases[session := lease.(heartbeat := now)])
            && Apply(s, Stop(session), ids, c, now)
               == locked.(leases := locked.leases[session := lease.(status := Stopping)])
            && forall after | after in [Apply(s, Delete(session), ids, c, now),
                                        Apply(s, Rollback(session, lease.bot, lease.installation, lease.chat), ids, c,
                                              now)] ::
                 && after.leases == locked.leases - {session} && after.bots == locked.bots
                 && forall o :: o in after.operations <==> o in locked.operations
                                                           && locked.operations[o].session != session
  {
    hide Locked;
  }

  lemma EndedFreesTheIndex(s: Pool, op: OpId, session: SessionId, installation: Installation, generation: nat,
                           now: Time, waiting: OpId, other: SessionId, kind: Kind, document: Option<Document>,
                           later: Time)
    requires OneIndexPerVault(s.operations) && op in s.operations && s.operations[op].session == session
    requires s.operations[op].kind != Data && waiting !in s.operations
    requires other in s.leases && s.leases[other].chat == s.operations[op].chat
    ensures var after := Conclude(s, op, session, installation, generation, now);
            other in after.leases && waiting in Admit(after, waiting, other, kind, document, later).operations
  {
    hide Admit;
    var after := Conclude(s, op, session, installation, generation, now);
    EndedExactly(s, op, session, installation, generation, now);
    assert forall o <- after.operations :: o in s.operations && after.operations[o] == s.operations[o];
    AdmittedExactly(after, waiting, other, kind, document, later);
  }

  /** A rollback touches only the very lease that was prepared, quarantine and rotation are the bot's flags, and a
      restart forgets who confirmed what, and nothing else. */
  lemma OthersExactly(s: Pool, session: SessionId, bot: BotId, installation: Installation, chat: ChatId,
                      quarantined: bool, rotating: bool, ids: set<BotId>, c: Config, now: Time)
    ensures var locked := Locked(s, ids, c, now);
            && (!(session in locked.leases && locked.leases[session].bot == bot
                  && locked.leases[session].installation == installation && locked.leases[session].chat == chat)
                ==> Apply(s, Rollback(session, bot, installation, chat), ids, c, now) == locked)
            && (bot in locked.bots ==>
                  Apply(s, Flag(bot, quarantined, rotating), ids, c, now)
                  == locked.(bots := locked.bots[bot := Bot(locked.bots[bot].generation, quarantined, rotating)]))
            && Apply(s, Sweep, ids, c, now) == locked
            && Apply(s, Restart, ids, c, now) == Pool(s.bots, s.leases, s.operations, s.process + 1, map[])
  {
    hide Locked;
  }

  /** Beginning an operation under a lease that the lock leaves admits it exactly as stated for the locked state. */
  lemma BegunExactly(s: Pool, op: OpId, session: SessionId, kind: Kind, document: Option<Document>, ids: set<BotId>,
                     c: Config, now: Time)
    requires op !in s.operations
    ensures var locked, after := Locked(s, ids, c, now), Apply(s, Begin(op, session, kind, document), ids, c, now);
            && op !in locked.operations
            && (op in after.operations <==>
                  && session in locked.leases
                  && (kind == Data
                      || forall o <- locked.operations :: locked.operations[o].chat == locked.leases[session].chat
                                                          && locked.operations[o].kind != Data ==>
                           var held := locked.operations[o];
                           && document.Some? && held.document.Some? && held.session == session
                           && held.document.value.tab == document.value.tab
                           && 0 < held.document.value.generation < document.value.generation))
            && (session !in locked.leases ==> after == locked)
  {
    hide Locked, Admit;
    StaysSwept(s, ids, c, now, op);
    if session in Locked(s, ids, c, now).leases {
      AdmittedExactly(Locked(s, ids, c, now), op, session, kind, document, now);
    }
  }

  // The transport state over its records.

  class TransportState {
    const config: Config
    var bots: map<BotId, Bot>
    var leases: Leases
    var operations: Operations
    var process: nat
    var firstSeen: map<OpId, Time>

    constructor (config: Config)
      ensures State() == EMPTY && this.config == config
    {
      this.config := config;
      bots, leases, operations, process, firstSeen := map[], map[], map[], 0, map[];
    }

    function State(): Pool
      reads this
    {
      Pool(bots, leases, operations, process, firstSeen)
    }

    /** Normalizes the state and reaps operations without lease or confirmation, as every mutation does first. */
    method Lock(ids: set<BotId>, now: Time)
      modifies this
      ensures State() == Locked(old(State()), ids, config, now)
    {
      bots := (map b | b in ids :: Bot(0, false, false)) + bots;
      leases := map l | l in leases && leases[l].bot in ids :: leases[l];
      ghost var before := State();
      assert before == Normalize(old(State()), ids);
      CleanupStale(now);
    }

    method CleanupStale(now: Time)
      modifies this
      ensures State() == Cleanup(old(State()), config, now)
    {
      hide Survives, Seen;
      var before, seen := State(), Seen(State(), now);
      var todo, removed: set<OpId> := operations.Keys, {};
      while todo != {}
        invariant todo <= before.operations.Keys && State() == before
        invariant forall o :: o in removed <==> o in before.operations && o !in todo
                                                && !Survives(before, o, config, now)
        decreases |todo|
      {
        var id :| id in todo;
        todo := todo - {id};
        if !Survives(before, id, config, now) {
          removed := removed + {id};
        }
      }
      CleanupRemoves(before, config, now, removed);
      operations := operations - removed;
      firstSeen := seen - removed;
    }

    method FindByInstallation(installation: Installation) returns (found: Option<SessionId>)
      requires OneLeasePerInstallation(leases)
      ensures found == FindLease(State(), installation)
    {
      FindsTheLease(State(), installation);
      found := None;
      var todo := leases.Keys;
      while todo != {} && found.None?
        invariant todo <= leases.Keys
        invariant found.Some? ==> OfInstallation(State(), found.value, installation)
        invariant found.None? ==> forall l <- leases :: leases[l].installation == installation ==> l in todo
        decreases |todo|
      {
        var session :| session in todo;
        todo := todo - {session};
        if leases[session].installation == installation {
          found := Some(session);
        }
      }
    }

    method RetireLease(session: SessionId)
      modifies this
      ensures State() == Retire(old(State()), session)
    {
      ghost var before := operations;
      var todo := operations.Keys;
      while todo != {}
        invariant todo <= before.Keys
        invariant State() == old(State()).(operations := operations)
        invariant operations == map o | o in before && (o in todo || before[o].session != session) :: before[o]
        decreases |todo|
      {
        var id :| id in todo;
        todo := todo - {id};
        if operations[id].session == session {
          operations := operations - {id};
        }
      }
      leases := leases - {session};
    }

    method PrepareAssignedLease(ids: set<BotId>, bot: BotId, installation: Installation, chat: ChatId,
                                session: SessionId, now: Time)
      returns (granted: bool)
      requires Invariant(State())
      modifies this
      ensures State() == Apply(old(State()), Prepare(bot, installation, chat, session), ids, config, now)
      ensures granted <==> Admissible(Locked(old(State()), ids, config, now), ids, bot)
    {
      hide Locked, Reusable, WithoutOf, Invariant, Seen;
      var savedBots, savedLeases, savedOperations, seen := bots, leases, operations, Seen(State(), now);
      LockedShrinks(State(), ids, config, now);
      ShrinkingKeeps(State(), Locked(State(), ids, config, now));
      Lock(ids, now);
      InvariantSays(State());
      granted := Admissible(State(), ids, bot);
      if !granted {
        bots, leases, operations, firstSeen := savedBots, savedLeases, savedOperations, seen;
        return;
      }
      var existing := FindByInstallation(installation);
      FindsTheLease(State(), installation);
      if existing.Some? && Reusable(leases[existing.value], bot, chat, config, now) {
        leases := leases[existing.value := leases[existing.value].(heartbeat := now)];
        return;
      }
      if existing.Some? {
        RetireLease(existing.value);
      }
      var generation := bots[bot].generation + 1;
      bots := bots[bot := bots[bot].(generation := generation)];
      leases := leases[session := Lease(bot, installation, chat, generation, Assigning, now)];
    }

    method DeleteLease(ids: set<BotId>, session: SessionId, now: Time)
      modifies this
      ensures State() == Apply(old(State()), Delete(session), ids, config, now)
    {
      hide Locked, WithoutOf;
      Lock(ids, now);
      if session in leases {
        RetireLease(session);
      }
    }

    method RollbackPreparedLease(ids: set<BotId>, session: SessionId, bot: BotId, installation: Installation,
                                 chat: ChatId, now: Time)
      modifies this
      ensures State() == Apply(old(State()), Rollback(session, bot, installation, chat), ids, config, now)
    {
      hide Locked, WithoutOf;
      Lock(ids, now);
      if session in leases {
        var current := leases[session];
        if current.bot == bot && current.installation == installation && current.chat == chat {
          RetireLease(session);
        }
      }
    }

    /** Deletes the INDEX operations an earlier document of this tab left behind. */
    method SupersedeDocuments(session: SessionId, chat: ChatId, document: Option<Document>)
      modifies `operations
      ensures State() == WithoutSuperseded(old(State()), session, chat, document)
    {
      hide Superseded;
      ghost var before := operations;
      var todo := operations.Keys;
      while todo != {}
        invariant todo <= before.Keys
        invariant operations == map o | o in before && (o in todo || !Superseded(before[o], session, chat, document)) ::
                    before[o]
        decreases |todo|
      {
        var id :| id in todo;
        todo := todo - {id};
        if Superseded(operations[id], session, chat, document) {
          operations := operations - {id};
        }
      }
    }

    /** Reads the lease, then confirms it under one lock and admits the operation under a later one; with a rotation
        pending or outdated credentials (`upToDate` is false) it stops between the two. */
    method BeginOperation(ids: set<BotId>, op: OpId, session: SessionId, installation: Installation, generation: nat,
                          kind: Kind, document: Option<Document>, upToDate: bool, now: Time, later: Time)
      returns (admitted: bool)
      requires op !in operations
      modifies this
      ensures var found := old(leases);
              if session in found && found[session].bot in ids && found[session].installation == installation
                 && found[session].generation == generation && 0 < config.heartbeatTimeoutMs
                 && now < found[session].heartbeat + config.heartbeatTimeoutMs
              then var beaten := Apply(old(State()), Beat(session), ids, config, now);
                   State() == if upToDate then Apply(beaten, Begin(op, session, kind, document), ids, config, later)
                   else beaten
              else State() == old(State())
      ensures admitted <==> op in operations
    {
      hide Locked, WithoutSuperseded, Busy, Superseded;
      var known := map l | l in leases && leases[l].bot in ids :: leases[l];
      if session !in known || known[session].installation != installation || known[session].generation != generation {
        return false;
      }
      if Elapsed(now, known[session].heartbeat) >= config.heartbeatTimeoutMs {
        return false;
      }
      LockedShrinks(State(), ids, config, now);
      Lock(ids, now);
      if session in leases {
        leases := leases[session := leases[session].(heartbeat := now)];
      }
      if !upToDate {
        return false;
      }
      admitted := AdmitOperation(ids, op, session, kind, document, later);
    }

    method AdmitOperation(ids: set<BotId>, op: OpId, session: SessionId, kind: Kind, document: Option<Document>,
                          now: Time)
      returns (admitted: bool)
      requires op !in operations
      modifies this
      ensures State() == Apply(old(State()), Begin(op, session, kind, document), ids, config, now)
      ensures admitted <==> op in operations
    {
      hide Locked, WithoutSuperseded, Busy, Superseded;
      LockedShrinks(State(), ids, config, now);
      Lock(ids, now);
      if session !in leases {
        return false;
      }
      var chat := leases[session].chat;
      if kind != Data {
        SupersededAreRemoved(State(), session, chat, document);
        SupersedeDocuments(session, chat, document);
        if Busy(State(), chat) {
          return false;
        }
      }
      leases := leases[session := leases[session].(heartbeat := now)];
      operations := operations[op := Operation(session, chat, kind, document, process, now)];
      return true;
    }

    method RenewOperation(ids: set<BotId>, op: OpId, session: SessionId, installation: Installation, generation: nat,
                          now: Time)
      returns (renewed: bool)
      modifies this
      ensures State() == Apply(old(State()), Renew(op, session, installation, generation), ids, config, now)
    {
      hide Locked;
      LockedShrinks(State(), ids, config, now);
      Lock(ids, now);
      if session !in leases || op !in operations {
        return false;
      }
      if leases[session].installation != installation || leases[session].generation != generation {
        return false;
      }
      if operations[op].session != session {
        return false;
      }
      leases := leases[session := leases[session].(heartbeat := now)];
      operations := operations[op := operations[op].(process := process, liveAt := now)];
      firstSeen := firstSeen - {op};
      return true;
    }

    method EndOperation(ids: set<BotId>, op: OpId, session: SessionId, installation: Installation, generation: nat,
                        now: Time)
      modifies this
      ensures State() == Apply(old(State()), End(op, session, installation, generation), ids, config, now)
    {
      hide Locked;
      Lock(ids, now);
      if session in leases && leases[session].installation == installation && leases[session].generation == generation {
        leases := leases[session := leases[session].(heartbeat := now)];
      }
      if op in operations && operations[op].session == session {
        operations := operations - {op};
      }
    }
  }

  lemma CleanupRemoves(s: Pool, c: Config, now: Time, removed: set<OpId>)
    requires forall o :: o in removed <==> o in s.operations && !Survives(s, o, c, now)
    ensures Cleanup(s, c, now) == s.(operations := s.operations - removed, firstSeen := Seen(s, now) - removed)
  {
    hide Survives, Seen;
  }

  lemma SupersededAreRemoved(s: Pool, session: SessionId, chat: ChatId, document: Option<Document>)
    ensures forall o <- WithoutSuperseded(s, session, chat, document).operations :: o in s.operations
    ensures WithoutSuperseded(s, session, chat, document)
            == s.(operations := WithoutSuperseded(s, session, chat, document).operations)
  {
    hide Superseded;
  }
}
