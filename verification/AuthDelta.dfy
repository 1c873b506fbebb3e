/** Processes that share the auth tables and write only what changed between their own snapshots. */
module AuthDelta {
  import opened Wrappers

  type Process = string
  type UserId = string
  type Value = string

  datatype Column = Username | UsernameSource | Email | PasswordHash | PasswordHashAlgorithm | PasswordSalt

  datatype User = User(
    username: Value, usernameSource: Value, email: Value, passwordHash: Value, passwordHashAlgorithm: Value,
        passwordSalt: Value)
  {
    function At(c: Column): Value {
      match c
      case Username => username
      case UsernameSource => usernameSource
      case Email => email
      case PasswordHash => passwordHash
      case PasswordHashAlgorithm => passwordHashAlgorithm
      case PasswordSalt => passwordSalt
    }
  }

  /** Rows of the tables keyed by one id: sessions, providers and second factors can be removed, vaults cannot. The
      value of a vault is the pair of columns its upsert writes. */
  datatype Key = Session(id: string) | Provider(id: string) | Factor(id: string) | Vault(user: UserId)

  type Users = map<UserId, User>
  type Rows = map<Key, Value>

  /** A snapshot of the auth state, and equally the contents of the tables. */
  datatype Snapshot = Snapshot(users: Users, rows: Rows)

  // One delta.

  function RemovedKeys(previous: Rows, current: Rows): set<Key> {
    set k | k in previous && k !in current && !k.Vault?
  }

  function ChangedRows(previous: Rows, current: Rows): Rows {
    map k | k in current && (k !in previous || previous[k] != current[k]) :: current[k]
  }

  function MergeRows(db: Rows, previous: Rows, current: Rows): Rows {
    (db - RemovedKeys(previous, current)) + ChangedRows(previous, current)
  }

  function UpdateChanged(stored: User, previous: User, current: User): User {
    User(if previous.username != current.username then current.username else stored.username,
         if previous.usernameSource != current.usernameSource then current.usernameSource else stored.usernameSource,
         if previous.email != current.email then current.email else stored.email,
         if previous.passwordHash != current.passwordHash then current.passwordHash else stored.passwordHash,
         if previous.passwordHashAlgorithm != current.passwordHashAlgorithm then current.passwordHashAlgorithm
         else stored.passwordHashAlgorithm,
         if previous.passwordSalt != current.passwordSalt then current.passwordSalt else stored.passwordSalt)
  }

  /** INSERT ... ON CONFLICT DO NOTHING for a user the process did not know, UPDATE of the changed columns for one it
      did. */
  function MergeUser(db: Users, previous: Users, id: UserId, user: User): Option<User> {
    if id !in previous then Some(if id in db then db[id] else user)
    else if id !in db then None
    else Some(UpdateChanged(db[id], previous[id], user))
  }

  function MergeUsers(db: Users, previous: Users, current: Users): Users {
    map id | id in db.Keys + current.Keys && (id in current ==> MergeUser(db, previous, id, current[id]).Some?) ::
      if id in current then MergeUser(db, previous, id, current[id]).value else db[id]
  }

  function Merge(db: Snapshot, previous: Snapshot, current: Snapshot): Snapshot {
    Snapshot(MergeUsers(db.users, previous.users, current.users), MergeRows(db.rows, previous.rows, current.rows))
  }

  // Several processes.

  /** The tables, and for each process the snapshot its last applied delta ended in. */
  datatype System = System(db: Snapshot, applied: map<Process, Snapshot>)

  /** A process writes the delta to its new snapshot, or starts, for the first time or again, from the tables. */
  datatype Step = Write(process: Process, current: Snapshot) | Load(process: Process)

  /** A process that never started writes nothing. */
  ghost function Apply(s: System, step: Step): System {
    match step
    case Load(p) => s.(applied := s.applied[p := s.db])
    case Write(p, current) =>
      if p in s.applied then System(Merge(s.db, s.applied[p], current), s.applied[p := current]) else s
  }

  ghost function Run(s: System, steps: seq<Step>): System {
    if steps == [] then s else Apply(Run(s, steps[..|steps| - 1]), steps[|steps| - 1])
  }

  /** What each process may change: keys, and single columns of users. */
  datatype Ownership = Ownership(keys: map<Key, Process>, columns: map<(UserId, Column), Process>)

  predicate OwnsKey(o: Ownership, p: Process, k: Key) {
    k in o.keys && o.keys[k] == p
  }

  predicate OwnsColumn(o: Ownership, p: Process, id: UserId, c: Column) {
    (id, c) in o.columns && o.columns[(id, c)] == p
  }

  predicate SameAt(a: Rows, b: Rows, k: Key) {
    (k in a <==> k in b) && (k in a ==> a[k] == b[k])
  }

  /** A step changes only keys and columns its process owns. */
  ghost predicate Respects(s: System, step: Step, o: Ownership) {
    step.Write? && step.process in s.applied ==>
    var previous := s.applied[step.process];
    && (forall k :: !SameAt(previous.rows, step.current.rows, k) ==> OwnsKey(o, step.process, k))
    && (forall id, c | id in previous.users && id in step.current.users
                       && previous.users[id].At(c) != step.current.users[id].At(c)
          :: OwnsColumn(o, step.process, id, c))
  }

  /** A step does not insert a user id the table already holds, and keeps the vaults it knows. */
  ghost predicate InsertsNew(s: System, step: Step) {
    step.Write? && step.process in s.applied ==>
    var previous := s.applied[step.process];
    && (forall id <- step.current.users :: id !in previous.users ==> id !in s.db.users)
    && (forall k <- previous.rows :: k.Vault? ==> k in step.current.rows)
  }

  ghost predicate Agrees(s: System, o: Ownership) {
    && (forall p, k | p in s.applied && OwnsKey(o, p, k) :: SameAt(s.db.rows, s.applied[p].rows, k))
    && (forall p, id, c | p in s.applied && OwnsColumn(o, p, id, c) && id in s.applied[p].users ::
          id in s.db.users && s.db.users[id].At(c) == s.applied[p].users[id].At(c))
    && (forall p, id | p in s.applied && id in s.applied[p].users :: id in s.db.users)
  }

  lemma MergedRow(db: Rows, previous: Rows, current: Rows, k: Key)
    ensures var after := MergeRows(db, previous, current);
            && (SameAt(previous, current, k) ==> SameAt(after, db, k))
            && (!SameAt(previous, current, k) && (k.Vault? ==> k in current) ==> SameAt(after, current, k))
            && (k in db && k !in after ==> k in previous && k !in current && !k.Vault?)
  {
  }

  lemma MergedColumn(db: Users, previous: Users, current: Users, id: UserId, c: Column)
    requires id in db
    ensures var after := MergeUsers(db, previous, current);
            && id in after
            && (id !in current || id !in previous ==> after[id] == db[id])
            && (id in current && id in previous ==>
                  after[id].At(c) == if previous[id].At(c) != current[id].At(c) then current[id].At(c)
                  else db[id].At(c))
  {
  }

  lemma InsertedUser(db: Users, previous: Users, current: Users, id: UserId)
    requires id !in db && id in current && id !in previous
    ensures id in MergeUsers(db, previous, current) && MergeUsers(db, previous, current)[id] == current[id]
  {
  }

  lemma StepKeepsRows(s: System, step: Step, o: Ownership, p: Process, k: Key)
    requires step.Write? && step.process in s.applied && p in s.applied && OwnsKey(o, p, k)
    requires Respects(s, step, o) && InsertsNew(s, step) && SameAt(s.db.rows, s.applied[p].rows, k)
    ensures var after := Apply(s, step); SameAt(after.db.rows, after.applied[p].rows, k)
  {
    hide MergeRows;
    MergedRow(s.db.rows, s.applied[step.process].rows, step.current.rows, k);
  }

  lemma StepKeepsColumns(s: System, step: Step, o: Ownership, p: Process, id: UserId, c: Column)
    requires step.Write? && step.process in s.applied && p in s.applied && Respects(s, step, o) && InsertsNew(s, step)
    requires id in s.applied[p].users ==> id in s.db.users
    requires forall q, u | q in s.applied && u in s.applied[q].users :: u in s.db.users
    requires OwnsColumn(o, p, id, c) && id in s.applied[p].users ==>
               s.db.users[id].At(c) == s.applied[p].users[id].At(c)
    ensures var after := Apply(s, step);
            id in after.applied[p].users ==>
              id in after.db.users && (OwnsColumn(o, p, id, c) ==>
                                         after.db.users[id].At(c) == after.applied[p].users[id].At(c))
  {
    hide MergeUsers;
    var previous, current := s.applied[step.process].users, step.current.users;
    if id in s.db.users {
      MergedColumn(s.db.users, previous, current, id, c);
    } else if id in current {
      InsertedUser(s.db.users, previous, current, id);
    }
  }

  lemma WriteKeeps(s: System, step: Step, o: Ownership)
    requires step.Write? && step.process in s.applied
    requires Agrees(s, o) && Respects(s, step, o) && InsertsNew(s, step)
    ensures Agrees(Apply(s, step), o)
  {
    hide Merge, Respects, InsertsNew;
    var after := Apply(s, step);
    forall p, k | p in after.applied && OwnsKey(o, p, k) ensures SameAt(after.db.rows, after.applied[p].rows, k) {
      StepKeepsRows(s, step, o, p, k);
    }
    forall p, id, c | p in after.applied && id in after.applied[p].users
      ensures id in after.db.users && (OwnsColumn(o, p, id, c) ==>
                                         after.db.users[id].At(c) == after.applied[p].users[id].At(c))
    {
      StepKeepsColumns(s, step, o, p, id, c);
    }
    forall p, id | p in after.applied && id in after.applied[p].users ensures id in after.db.users {
      StepKeepsColumns(s, step, o, p, id, Username);
    }
  }

  lemma {:induction false} StepKeeps(s: System, step: Step, o: Ownership)
    requires Agrees(s, o) && Respects(s, step, o) && InsertsNew(s, step)
    ensures Agrees(Apply(s, step), o)
  {
    hide Merge, Respects, InsertsNew;
    if step.Write? && step.process in s.applied {
      WriteKeeps(s, step, o);
    }
  }

  ghost predicate RespectfulRun(s: System, steps: seq<Step>, o: Ownership) {
    steps != [] ==>
      var before := steps[..|steps| - 1];
      RespectfulRun(s, before, o) && Respects(Run(s, before), steps[|steps| - 1], o)
      && InsertsNew(Run(s, before), steps[|steps| - 1])
  }

  /** Any interleaving of the starts, restarts and deltas of processes with disjoint ownership leaves every owned key
      and every owned user column at its owner's latest applied snapshot. */
  lemma {:induction false} OwnersPrevail(s: System, steps: seq<Step>, o: Ownership)
    requires Agrees(s, o) && RespectfulRun(s, steps, o)
    ensures Agrees(Run(s, steps), o)
  {
    if steps != [] {
      hide Agrees, Respects, InsertsNew, Apply;
      OwnersPrevail(s, steps[..|steps| - 1], o);
      StepKeeps(Run(s, steps[..|steps| - 1]), steps[|steps| - 1], o);
    }
  }

  /** A step never removes a user, and removes a row only if its own process dropped it and owns it. */
  lemma NothingOfOthersIsRemoved(s: System, step: Step, o: Ownership, k: Key, id: UserId)
    requires Respects(s, step, o)
    ensures id in s.db.users ==> id in Apply(s, step).db.users
    ensures k in s.db.rows && k !in Apply(s, step).db.rows ==>
              && step.Write? && step.process in s.applied && OwnsKey(o, step.process, k)
              && k in s.applied[step.process].rows && k !in step.current.rows
  {
    hide MergeRows, MergeUsers;
    if step.Write? && step.process in s.applied {
      MergedRow(s.db.rows, s.applied[step.process].rows, step.current.rows, k);
      if id in s.db.users {
        MergedColumn(s.db.users, s.applied[step.process].users, step.current.users, id, Username);
      }
    }
  }

  // Several queues: every process saves and flushes at its own pace.

  lemma RunNext(s: System, steps: seq<Step>, step: Step)
    ensures Run(s, steps + [step]) == Apply(Run(s, steps), step)
  {
    hide Apply;
    assert (steps + [step])[..|steps + [step]| - 1] == steps;
  }

  datatype Delta = Delta(base: Snapshot, current: Snapshot)

  /** The tables; for each process its last saved snapshot and its queue; and the snapshot its last flushed delta
      ended in. */
  datatype Queues = Queues(db: Snapshot, saved: map<Process, Snapshot>, queues: map<Process, seq<Delta>>,
                           applied: map<Process, Snapshot>)

  /** Starting, a process reads the tables; what an earlier one of its name had not flushed is gone. */
  datatype Action = Save(process: Process, snapshot: Snapshot) | Flush(process: Process) | Start(process: Process)

  ghost predicate Running(q: Queues) {
    q.saved.Keys == q.queues.Keys == q.applied.Keys
  }

  ghost function Act(q: Queues, a: Action): Queues
    requires Running(q)
    ensures Running(Act(q, a))
  {
    var p := a.process;
    match a
    case Start(_) => q.(saved := q.saved[p := q.db], queues := q.queues[p := []], applied := q.applied[p := q.db])
    case Save(_, snapshot) =>
      if p !in q.saved then q
      else
        q.(saved := q.saved[p := snapshot], queues := q.queues[p := q.queues[p] + [Delta(q.saved[p], snapshot)]])
    case Flush(_) =>
      if p !in q.saved || q.queues[p] == [] then q
      else
        var first := q.queues[p][0];
        q.(db := Merge(q.db, first.base, first.current), queues := q.queues[p := q.queues[p][1..]],
           applied := q.applied[p := first.current])
  }

  ghost function Schedule(q: Queues, actions: seq<Action>): Queues
    requires Running(q)
    ensures Running(Schedule(q, actions))
  {
    if actions == [] then q else Act(Schedule(q, actions[..|actions| - 1]), actions[|actions| - 1])
  }

  /** What an action does to the tables and to the snapshots applied to them. */
  ghost function Effect(q: Queues, a: Action): seq<Step>
    requires Running(q)
  {
    match a
    case Start(p) => [Load(p)]
    case Save(_, _) => []
    case Flush(p) => if p in q.saved && q.queues[p] != [] then [Write(p, q.queues[p][0].current)] else []
  }

  /** The starts and the deltas that reach the tables, in the order in which they do. */
  ghost function Flushed(q: Queues, actions: seq<Action>): seq<Step>
    requires Running(q)
  {
    if actions == [] then []
    else
      Flushed(q, actions[..|actions| - 1]) + Effect(Schedule(q, actions[..|actions| - 1]), actions[|actions| - 1])
  }

  /** Each queued delta starts where the one before it ends. */
  ghost predicate Links(from: Snapshot, queue: seq<Delta>, to: Snapshot) {
    && (if queue == [] then from == to else queue[0].base == from && queue[|queue| - 1].current == to)
    && forall i | 0 < i < |queue| :: queue[i].base == queue[i - 1].current
  }

  ghost predicate Chained(q: Queues) {
    Running(q) && forall p <- q.saved :: Links(q.applied[p], q.queues[p], q.saved[p])
  }

  lemma LinksGrow(from: Snapshot, queue: seq<Delta>, to: Snapshot, next: Snapshot)
    requires Links(from, queue, to)
    ensures Links(from, queue + [Delta(to, next)], next)
  {
  }

  lemma LinksShrink(from: Snapshot, queue: seq<Delta>, to: Snapshot)
    requires Links(from, queue, to) && queue != []
    ensures queue[0].base == from && Links(queue[0].current, queue[1..], to)
  {
  }

  lemma ActionStaysChained(q: Queues, a: Action)
    requires Chained(q)
    ensures Chained(Act(q, a))
  {
    hide Merge, Links;
    var p := a.process;
    assert Links(q.db, [], q.db) by {
      LinksNothing(q.db);
    }
    if a.Save? && p in q.saved {
      LinksGrow(q.applied[p], q.queues[p], q.saved[p], a.snapshot);
    } else if a.Flush? && p in q.saved && q.queues[p] != [] {
      LinksShrink(q.applied[p], q.queues[p], q.saved[p]);
    }
  }

  lemma LinksNothing(s: Snapshot)
    ensures Links(s, [], s)
  {
  }

  ghost function Flat(q: Queues): System {
    System(q.db, q.applied)
  }

  /** Whatever starts, saves and flushes of several processes interleave, what reaches the tables is a run of steps
      whose bases are the snapshots their own process loaded or flushed before. */
  lemma {:induction false} QueuesAreSteps(q: Queues, actions: seq<Action>)
    requires Chained(q)
    ensures Chained(Schedule(q, actions)) && Run(Flat(q), Flushed(q, actions)) == Flat(Schedule(q, actions))
  {
    if actions != [] {
      hide Chained, Run, Act, Effect, Flat;
      var before, a := actions[..|actions| - 1], actions[|actions| - 1];
      QueuesAreSteps(q, before);
      ActionStaysChained(Schedule(q, before), a);
      EffectIsStep(Flat(q), Flushed(q, before), Schedule(q, before), a);
    }
  }

  lemma EffectIsStep(start: System, steps: seq<Step>, q: Queues, a: Action)
    requires Chained(q) && Run(start, steps) == Flat(q)
    ensures Run(start, steps + Effect(q, a)) == Flat(Act(q, a))
  {
    hide Merge, Run, Links;
    if Effect(q, a) == [] {
      assert steps + [] == steps;
    } else {
      RunNext(start, steps, Effect(q, a)[0]);
      if a.Flush? {
        LinksShrink(q.applied[a.process], q.queues[a.process], q.saved[a.process]);
      }
    }
  }

  /** Saving puts the delta to the snapshot saved before at the end of the process's own queue. */
  lemma SavedIsQueued(q: Queues, p: Process, snapshot: Snapshot)
    requires Running(q) && p in q.saved
    ensures var after := Act(q, Save(p, snapshot));
            && p in after.saved && after.saved[p] == snapshot
            && after.queues[p] == q.queues[p] + [Delta(q.saved[p], snapshot)] && after.queues - {p} == q.queues - {p}
            && after.db == q.db && after.applied == q.applied && after.saved - {p} == q.saved - {p}
  {
  }

  ghost function Flushes(p: Process, n: nat): seq<Action> {
    if n == 0 then [] else Flushes(p, n - 1) + [Flush(p)]
  }

  lemma ScheduleNext(q: Queues, actions: seq<Action>, a: Action)
    requires Running(q)
    ensures Schedule(q, actions + [a]) == Act(Schedule(q, actions), a)
  {
    hide Act;
    assert (actions + [a])[..|actions + [a]| - 1] == actions;
  }

  /** A queue of n deltas runs dry after n flushes: the tables have then taken over all that its process saved. */
  lemma {:induction false} FlushedDry(q: Queues, p: Process, n: nat)
    requires Chained(q) && p in q.saved && n <= |q.queues[p]|
    ensures var after := Schedule(q, Flushes(p, n));
            && Chained(after) && after.saved == q.saved && after.queues[p] == q.queues[p][n..]
            && (n == |q.queues[p]| ==> after.applied[p] == q.saved[p])
  {
    hide Act, Merge, Links;
    if n > 0 {
      FlushedDry(q, p, n - 1);
      ScheduleNext(q, Flushes(p, n - 1), Flush(p));
      FlushOnce(Schedule(q, Flushes(p, n - 1)), p, q.queues[p], n);
    }
    DryIsApplied(Schedule(q, Flushes(p, n)), p);
  }

  lemma FlushOnce(q: Queues, p: Process, all: seq<Delta>, n: nat)
    requires Chained(q) && p in q.saved && 0 < n <= |all| && q.queues[p] == all[n - 1..]
    ensures var after := Act(q, Flush(p));
            Chained(after) && after.saved == q.saved && after.queues[p] == all[n..]
  {
    hide Act, Merge, Links;
    ActionStaysChained(q, Flush(p));
    FlushTakesFirst(q, p);
  }

  lemma FlushTakesFirst(q: Queues, p: Process)
    requires Running(q) && p in q.saved && q.queues[p] != []
    ensures var after := Act(q, Flush(p));
            && after.saved == q.saved && after.queues[p] == q.queues[p][1..]
            && after.applied[p] == q.queues[p][0].current
            && after.db == Merge(q.db, q.queues[p][0].base, q.queues[p][0].current)
  {
    hide Merge;
  }

  lemma DryIsApplied(q: Queues, p: Process)
    requires Chained(q) && p in q.saved
    ensures q.queues[p] == [] ==> q.applied[p] == q.saved[p]
  {
  }

  /** Under disjoint ownership, every key and column ends at what its owner flushed last, or found when it started;
      where the owner's queue has run dry, that is what it saved last. */
  lemma {:induction false} QueuedOwnersPrevail(q: Queues, actions: seq<Action>, o: Ownership)
    requires Chained(q) && Agrees(Flat(q), o) && RespectfulRun(Flat(q), Flushed(q, actions), o)
    ensures var after := Schedule(q, actions);
            && Agrees(Flat(after), o)
            && forall p <- after.saved :: after.queues[p] == [] ==> after.applied[p] == after.saved[p]
  {
    hide Agrees, Run, RespectfulRun, Schedule, Flushed;
    QueuesAreSteps(q, actions);
    OwnersPrevail(Flat(q), Flushed(q, actions), o);
  }

  // Exactly when a delta leaves the tables with what its process meant.

  /** A key that agreed before agrees after the delta if and only if the process did not drop a vault. */
  lemma RowAgreesExactly(db: Rows, previous: Rows, current: Rows, k: Key)
    requires SameAt(db, previous, k)
    ensures SameAt(MergeRows(db, previous, current), current, k) <==> !(k.Vault? && k in previous && k !in current)
  {
  }

  /** A column that agreed before agrees after the delta if and only if the user was known, is new to the table, or
      happens to be stored with that value already: inserting a user again does not overwrite the stored columns. */
  lemma ColumnAgreesExactly(db: Users, previous: Users, current: Users, id: UserId, c: Column)
    requires id in current && (id in previous ==> id in db && db[id].At(c) == previous[id].At(c))
    ensures var after := MergeUsers(db, previous, current);
            id in after && (after[id].At(c) == current[id].At(c)
                            <==> id in previous || id !in db || db[id].At(c) == current[id].At(c))
  {
    hide MergeUsers;
    if id in db {
      MergedColumn(db, previous, current, id, c);
    } else {
      InsertedUser(db, previous, current, id);
    }
  }

  /** A user dropped from the snapshots and registered again keeps the old address in the table. */
  lemma ReaddedUserKeepsOldColumns(user: User, email: Value)
    requires email != user.email
    ensures var first := Snapshot(map["u" := user], map[]);
            var again := Snapshot(map["u" := user.(email := email)], map[]);
            var start := System(first, map["p" := first]);
            var end := Apply(Apply(start, Write("p", Snapshot(map[], map[]))), Write("p", again));
            end.applied["p"] == again && "u" in end.db.users && end.db.users["u"] == user
  {
    var first := Snapshot(map["u" := user], map[]);
    var dropped := Apply(System(first, map["p" := first]), Write("p", Snapshot(map[], map[])));
    assert dropped.db.users == map["u" := user];
  }

  lemma NoUsers(db: Users, previous: Users)
    ensures MergeUsers(db, previous, map[]) == db
  {
  }

  lemma OneMoreUser(db: Users, previous: Users, done: Users, id: UserId, user: User)
    requires id !in done
    ensures var some, next := MergeUsers(db, previous, done), MergeUsers(db, previous, done[id := user]);
            next == if id !in previous then (if id in some then some else some[id := user])
                    else if id in some && previous[id] != user
                            then some[id := UpdateChanged(some[id], previous[id], user)]
                    else some
  {
    hide UpdateChanged;
    if id in db && id in previous && previous[id] == user {
      UnchangedUser(db[id], user);
    }
  }

  lemma UnchangedUser(stored: User, user: User)
    ensures UpdateChanged(stored, user, user) == stored
  {
  }

  // The tables, written row by row.

  class AuthTables {
    var users: Users
    var rows: Rows

    constructor (initial: Snapshot)
      ensures Contents() == initial
    {
      users, rows := initial.users, initial.rows;
    }

    function Contents(): Snapshot
      reads this
    {
      Snapshot(users, rows)
    }

    /** One transaction: users first, then removed rows, then changed ones. */
    method MergeSnapshotDelta(previous: Snapshot, current: Snapshot)
      modifies this
      ensures Contents() == Merge(old(Contents()), previous, current)
    {
      WriteUsers(previous.users, current.users);
      DeleteRows(RemovedKeys(previous.rows, current.rows));
      UpsertRows(ChangedRows(previous.rows, current.rows));
    }

    method WriteUsers(previous: Users, current: Users)
      modifies `users
      ensures users == MergeUsers(old(users), previous, current)
    {
      hide MergeUsers, UpdateChanged;
      ghost var before, done: Users := users, map[];
      var todo := current.Keys;
      NoUsers(before, previous);
      while todo != {}
        invariant todo <= current.Keys && users == MergeUsers(before, previous, done)
        invariant forall id :: id in done <==> id in current && id !in todo
        invariant forall id <- done :: done[id] == current[id]
        decreases |todo|
      {
        var id :| id in todo;
        todo := todo - {id};
        OneMoreUser(before, previous, done, id, current[id]);
        done := done[id := current[id]];
        if id !in previous {
          if id !in users {
            users := users[id := current[id]];
          }
        } else if previous[id] != current[id] && id in users {
          users := users[id := UpdateChanged(users[id], previous[id], current[id])];
        }
      }
      assert done == current;
    }

    method DeleteRows(removed: set<Key>)
      modifies `rows
      ensures rows == old(rows) - removed
    {
      rows := rows - removed;
    }

    method UpsertRows(changed: Rows)
      modifies `rows
      ensures rows == old(rows) + changed
    {
      ghost var before := rows;
      var todo := changed.Keys;
      while todo != {}
        invariant todo <= changed.Keys
        invariant forall k :: k in rows <==> k in before || (k in changed && k !in todo)
        invariant forall k <- rows :: rows[k] == if k in changed && k !in todo then changed[k] else before[k]
        decreases |todo|
      {
        var k :| k in todo;
        todo := todo - {k};
        rows := rows[k := changed[k]];
      }
    }
  }
}
