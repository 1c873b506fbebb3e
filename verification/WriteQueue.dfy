/** Virtual control-plane files, the queue that makes them durable, and the barrier before every response. */
module WriteQueue {
  import opened Wrappers

  datatype File = Auth | Persistent

  datatype Path = Final(file: File) | Temporary(file: File)

  type Content = string
  type ResponseId = nat

  /** One queued write: the snapshot a rename put in place of a file. */
  datatype Write = Write(file: File, content: Content)

  datatype Reply = Sent | Unavailable

  /** `renamed` are the renames in their order, of which the queue took `accepted`; the first `settled` of those have
      run, and `applied` are the ones that reached the database. A waiting response remembers the tail of the queue
      (`tail`) and how many renames came before it (`after`). */
  datatype Waiting = Waiting(tail: nat, after: nat)

  datatype Runtime = Runtime(
    staged: map<Path, Content>, current: map<File, Content>,
    renamed: seq<Write>, accepted: seq<Write>, settled: nat, applied: seq<Write>, poisoned: bool,
    waiting: map<ResponseId, Waiting>, replies: map<ResponseId, Reply>)

  datatype Step =
    | WriteFile(path: Path, content: Content, wellFormed: bool)
    | Rename(file: File)
    | Execute(succeeds: bool)
    | Send(id: ResponseId)
    | Deliver(id: ResponseId)

  function Start(initial: map<File, Content>): Runtime {
    Runtime(map[], initial, [], [], 0, [], false, map[], map[])
  }

  function Read(r: Runtime, path: Path): Option<Content> {
    if path in r.staged then Some(r.staged[path])
    else if path.Final? && path.file in r.current then Some(r.current[path.file])
    else None
  }

  function Apply(r: Runtime, s: Step): Runtime {
    match s
    case WriteFile(path, content, wellFormed) => if wellFormed then r.(staged := r.staged[path := content]) else r
    case Rename(file) =>
      if Temporary(file) !in r.staged then r
      else
        var write := Write(file, r.staged[Temporary(file)]);
        r.(current := r.current[file := write.content], staged := r.staged - {Temporary(file)},
           renamed := r.renamed + [write],
           accepted := if r.poisoned then r.accepted else r.accepted + [write])
    case Execute(succeeds) =>
      if r.settled >= |r.accepted| then r
      else if r.poisoned then r.(settled := r.settled + 1)
      else if succeeds then r.(settled := r.settled + 1, applied := r.applied + [r.accepted[r.settled]])
      else r.(settled := r.settled + 1, poisoned := true)
    case Send(id) => if id in r.waiting then r else r.(waiting := r.waiting[id := Waiting(|r.accepted|, |r.renamed|)])
    case Deliver(id) =>
      if id in r.waiting && id !in r.replies && r.waiting[id].tail <= r.settled
      then r.(replies := r.replies[id := if r.poisoned then Unavailable else Sent]) else r
  }

  function Run(r: Runtime, steps: seq<Step>): Runtime {
    if steps == [] then r else Apply(Run(r, steps[..|steps| - 1]), steps[|steps| - 1])
  }

  // The queue.

  ghost predicate Prefix(a: seq<Write>, b: seq<Write>) {
    |a| <= |b| && a == b[..|a|]
  }

  /** Writes are applied in rename order, and while nothing failed every settled one was applied. */
  ghost predicate InOrder(r: Runtime) {
    && Prefix(r.accepted, r.renamed) && Prefix(r.applied, r.accepted)
    && r.settled <= |r.accepted|
    && (!r.poisoned ==> r.accepted == r.renamed && |r.applied| == r.settled)
    && |r.applied| <= r.settled
  }

  /** A waiting response knows at most the renames so far, and waits for all of them while nothing failed. */
  ghost predicate WaitsForAll(r: Runtime) {
    forall id <- r.waiting ::
      && r.waiting[id].tail <= |r.accepted| && r.waiting[id].after <= |r.renamed|
      && (!r.poisoned ==> r.waiting[id].tail == r.waiting[id].after)
  }

  ghost predicate Durable(r: Runtime, n: nat) {
    n <= |r.renamed| && n <= |r.applied| && r.renamed[..n] == r.applied[..n]
  }

  /** A response that was sent has every snapshot renamed before it in the database. */
  ghost predicate SentIsDurable(r: Runtime) {
    forall id <- r.replies :: id in r.waiting
      && (r.replies[id] == Sent ==> Durable(r, r.waiting[id].after))
  }

  ghost predicate Invariant(r: Runtime) {
    InOrder(r) && WaitsForAll(r) && SentIsDurable(r)
  }

  lemma QueueKeepsOrder(r: Runtime, s: Step)
    requires InOrder(r)
    ensures InOrder(Apply(r, s))
  {
  }

  lemma QueueKeepsWaiting(r: Runtime, s: Step)
    requires InOrder(r) && WaitsForAll(r)
    ensures WaitsForAll(Apply(r, s))
  {
    hide Prefix;
  }

  lemma DurableStays(r: Runtime, s: Step, n: nat)
    requires InOrder(r) && Durable(r, n)
    ensures Durable(Apply(r, s), n)
  {
    hide Prefix;
  }

  lemma SettledIsDurable(r: Runtime, n: nat)
    requires InOrder(r) && !r.poisoned && n <= r.settled
    ensures Durable(r, n)
  {
  }

  lemma RepliesKeep(r: Runtime, s: Step)
    requires Invariant(r)
    ensures SentIsDurable(Apply(r, s))
  {
    hide InOrder, Durable;
    var after := Apply(r, s);
    forall id <- after.replies | after.replies[id] == Sent
      ensures id in after.waiting && Durable(after, after.waiting[id].after)
    {
      if id in r.replies {
        DurableStays(r, s, r.waiting[id].after);
      } else {
        SettledIsDurable(r, r.waiting[id].after);
        DurableStays(r, s, r.waiting[id].after);
      }
    }
  }

  lemma KeepsInvariant(r: Runtime, s: Step)
    ensures Invariant(r) ==> Invariant(Apply(r, s))
  {
    hide Apply, InOrder, WaitsForAll, SentIsDurable;
    if Invariant(r) {
      QueueKeepsOrder(r, s);
      QueueKeepsWaiting(r, s);
      RepliesKeep(r, s);
    }
  }

  /** At every moment of every run: writes reach the database in rename order, and a response goes out only when every
      snapshot renamed before it is durable. */
  lemma {:induction false} AcknowledgedIsDurable(initial: map<File, Content>, steps: seq<Step>)
    ensures Invariant(Run(Start(initial), steps))
  {
    if steps != [] {
      hide Apply, InOrder, WaitsForAll, SentIsDurable;
      AcknowledgedIsDurable(initial, steps[..|steps| - 1]);
      KeepsInvariant(Run(Start(initial), steps[..|steps| - 1]), steps[|steps| - 1]);
    }
  }

  ghost predicate Frozen(r: Runtime, after: Runtime) {
    && after.poisoned && after.applied == r.applied && after.accepted == r.accepted
    && (forall id <- after.replies :: after.replies[id] == Sent ==> id in r.replies && r.replies[id] == Sent)
    && (forall id <- r.replies :: id in after.replies && after.replies[id] == r.replies[id])
  }

  lemma StepFreezes(r: Runtime, s: Step)
    requires r.poisoned
    ensures Frozen(r, Apply(r, s))
  {
  }

  /** From the first failed write on, nothing more is applied and no further response is acknowledged. */
  lemma {:induction false} NothingAfterTheFirstFailure(r: Runtime, steps: seq<Step>)
    requires r.poisoned
    ensures Frozen(r, Run(r, steps))
  {
    if steps != [] {
      hide Apply;
      NothingAfterTheFirstFailure(r, steps[..|steps| - 1]);
      StepFreezes(Run(r, steps[..|steps| - 1]), steps[|steps| - 1]);
    }
  }

  /** A waiting response is answered once everything queued before it has run: as sent if nothing failed so far, and as
      unavailable otherwise. */
  lemma AnsweredExactly(r: Runtime, id: ResponseId)
    requires id in r.waiting && id !in r.replies
    ensures var replies := Apply(r, Deliver(id)).replies;
            && (id in replies <==> r.waiting[id].tail <= r.settled)
            && (id in replies ==> replies[id] == (if r.poisoned then Unavailable else Sent))
            && forall other :: other != id ==> (other in replies <==> other in r.replies)
  {
  }

  /** How many queued writes are run. */
  ghost function Runs(steps: seq<Step>): nat {
    if steps == [] then 0 else Runs(steps[..|steps| - 1]) + if steps[|steps| - 1].Execute? then 1 else 0
  }

  ghost predicate NoneFails(steps: seq<Step>) {
    forall s <- steps :: s.Execute? ==> s.succeeds
  }

  lemma HealthyStep(r: Runtime, s: Step, id: ResponseId)
    requires !r.poisoned && (s.Execute? ==> s.succeeds) && id in r.waiting
    ensures var after := Apply(r, s);
            && !after.poisoned && |r.accepted| <= |after.accepted|
            && id in after.waiting && after.waiting[id] == r.waiting[id]
            && after.settled == r.settled + (if s.Execute? && r.settled < |r.accepted| then 1 else 0)
            && (forall other <- after.replies :: other in r.replies || after.replies[other] == Sent)
            && forall other <- r.replies :: other in after.replies && after.replies[other] == r.replies[other]
  {
  }

  lemma {:induction false} HealthyQueueSettles(r: Runtime, steps: seq<Step>, id: ResponseId)
    requires InOrder(r) && !r.poisoned && NoneFails(steps) && id in r.waiting && r.waiting[id].tail <= |r.accepted|
    ensures var after := Run(r, steps);
            && InOrder(after) && !after.poisoned && |r.accepted| <= |after.accepted|
            && id in after.waiting && after.waiting[id] == r.waiting[id]
            && (r.settled + Runs(steps) >= r.waiting[id].tail ==> after.settled >= r.waiting[id].tail)
            && (r.settled + Runs(steps) < r.waiting[id].tail ==> after.settled >= r.settled + Runs(steps))
            && forall other <- after.replies :: other in r.replies || after.replies[other] == Sent
  {
    if steps != [] {
      hide InOrder, Apply;
      var before, s := steps[..|steps| - 1], steps[|steps| - 1];
      assert s in steps;
      HealthyQueueSettles(r, before, id);
      QueueKeepsOrder(Run(r, before), s);
      HealthyStep(Run(r, before), s, id);
    }
  }

  /** While no write fails every response goes out: as soon as the queue has run as many writes as stood before it, it
      is or was sent, whatever else is written, renamed and sent in between. */
  lemma HealthyResponsesAreSent(initial: map<File, Content>, before: seq<Step>, id: ResponseId, steps: seq<Step>)
    requires !Run(Start(initial), before).poisoned && id !in Run(Start(initial), before).waiting && NoneFails(steps)
    requires var r := Run(Start(initial), before); |r.accepted| <= r.settled + Runs(steps)
    ensures var replies := Apply(Run(Apply(Run(Start(initial), before), Send(id)), steps), Deliver(id)).replies;
            id in replies && replies[id] == Sent
  {
    hide Run, InOrder, NoneFails;
    AcknowledgedIsDurable(initial, before);
    var r := Run(Start(initial), before);
    var sent := Apply(r, Send(id));
    QueueKeepsOrder(r, Send(id));
    HealthyQueueSettles(sent, steps, id);
    var end := Run(sent, steps);
    if id !in end.replies {
      AnsweredExactly(end, id);
    }
  }

  // What the database holds.

  function LastOf(writes: seq<Write>, file: File): Option<Content> {
    if writes == [] then None
    else if writes[|writes| - 1].file == file then Some(writes[|writes| - 1].content)
    else LastOf(writes[..|writes| - 1], file)
  }

  /** The file holds the last of these writes to it, or its initial content when there was none. */
  ghost predicate HoldsLast(current: map<File, Content>, initial: map<File, Content>, writes: seq<Write>, file: File) {
    match LastOf(writes, file)
    case Some(content) => file in current && current[file] == content
    case None => (file in current <==> file in initial) && (file in initial ==> current[file] == initial[file])
  }

  /** With an empty queue and no failure the database holds exactly what the process last renamed into place. */
  lemma {:induction false} IdleMeansEqual(initial: map<File, Content>, steps: seq<Step>, file: File)
    requires var r := Run(Start(initial), steps); !r.poisoned && r.settled == |r.accepted|
    ensures var r := Run(Start(initial), steps); r.applied == r.renamed
                                                 && HoldsLast(r.current, initial, r.applied, file)
  {
    hide Run, HoldsLast, SentIsDurable, WaitsForAll;
    AcknowledgedIsDurable(initial, steps);
    CurrentIsLastRenamed(initial, steps, file);
  }

  lemma LastNext(writes: seq<Write>, write: Write, file: File)
    ensures LastOf(writes + [write], file) == if write.file == file then Some(write.content) else LastOf(writes, file)
  {
    assert (writes + [write])[..|writes + [write]| - 1] == writes;
  }

  lemma StepHoldsLast(r: Runtime, s: Step, initial: map<File, Content>, file: File)
    requires HoldsLast(r.current, initial, r.renamed, file)
    ensures HoldsLast(Apply(r, s).current, initial, Apply(r, s).renamed, file)
  {
    hide LastOf;
    if s.Rename? && Temporary(s.file) in r.staged {
      LastNext(r.renamed, Write(s.file, r.staged[Temporary(s.file)]), file);
    }
  }

  lemma {:induction false} CurrentIsLastRenamed(initial: map<File, Content>, steps: seq<Step>, file: File)
    ensures var r := Run(Start(initial), steps); HoldsLast(r.current, initial, r.renamed, file)
  {
    if steps != [] {
      hide Apply, HoldsLast;
      CurrentIsLastRenamed(initial, steps[..|steps| - 1], file);
      StepHoldsLast(Run(Start(initial), steps[..|steps| - 1]), steps[|steps| - 1], initial, file);
    }
  }

  /** Reading a file right after its rename gives what was renamed if and only if nobody wrote the file itself directly:
      such a write shadows every later rename and is never made durable. */
  lemma RenameIsReadBack(r: Runtime, file: File)
    requires Temporary(file) in r.staged
    ensures var after, content := Apply(r, Rename(file)), r.staged[Temporary(file)];
            Read(after, Final(file)) == Some(content) <==> Final(file) !in r.staged || r.staged[Final(file)] == content
  {
  }

  // The runtime over its fields.

  class ControlPlane {
    var staged: map<Path, Content>
    var current: map<File, Content>
    ghost var renamed: seq<Write>
    var accepted: seq<Write>
    var settled: nat
    var applied: seq<Write>
    var poisoned: bool
    var waiting: map<ResponseId, nat>
    ghost var after: map<ResponseId, nat>
    var replies: map<ResponseId, Reply>

    constructor (initial: map<File, Content>)
      ensures Valid() && State() == Start(initial)
    {
      staged, current, renamed, accepted, settled, applied, poisoned := map[], initial, [], [], 0, [], false;
      waiting, after, replies := map[], map[], map[];
    }

    ghost predicate Valid()
      reads this
    {
      waiting.Keys == after.Keys && settled <= |accepted|
    }

    ghost function State(): Runtime
      reads this
      requires Valid()
    {
      Runtime(staged, current, renamed, accepted, settled, applied, poisoned,
              map id | id in waiting :: Waiting(waiting[id], after[id]), replies)
    }

    method WriteFileSync(path: Path, content: Content, wellFormed: bool) returns (written: bool)
      requires Valid()
      modifies this
      ensures Valid() && State() == Apply(old(State()), WriteFile(path, content, wellFormed)) && written == wellFormed
      ensures written ==> Read(State(), path) == Some(content)
      ensures !written ==> State() == old(State())
    {
      if !wellFormed {
        return false;
      }
      staged := staged[path := content];
      return true;
    }

    method RenameSync(file: File) returns (renamedIt: bool)
      requires Valid()
      modifies this
      ensures Valid() && State() == Apply(old(State()), Rename(file)) && renamedIt == (Temporary(file) in old(staged))
    {
      if Temporary(file) !in staged {
        return false;
      }
      var raw := staged[Temporary(file)];
      current := current[file := raw];
      staged := staged - {Temporary(file)};
      renamed := renamed + [Write(file, raw)];
      Enqueue(Write(file, raw));
      return true;
    }

    method Enqueue(write: Write)
      requires Valid()
      modifies `accepted
      ensures Valid() && accepted == if poisoned then old(accepted) else old(accepted) + [write]
    {
      if !poisoned {
        accepted := accepted + [write];
      }
    }

    /** Runs the next queued write, whose transaction succeeds or fails. */
    method RunNext(succeeds: bool)
      requires Valid()
      modifies this
      ensures Valid() && State() == Apply(old(State()), Execute(succeeds))
      ensures old(settled) < |old(accepted)| ==>
                && settled == old(settled) + 1 && poisoned == (old(poisoned) || !succeeds)
                && applied == if old(poisoned) || !succeeds then old(applied)
                              else old(applied) + [old(accepted)[old(settled)]]
      ensures old(settled) >= |old(accepted)| ==> State() == old(State())
    {
      if settled < |accepted| {
        if !poisoned {
          if succeeds {
            applied := applied + [accepted[settled]];
          } else {
            poisoned := true;
          }
        }
        settled := settled + 1;
      }
    }

    method SendResponse(id: ResponseId)
      requires Valid()
      modifies this
      ensures Valid() && State() == Apply(old(State()), Send(id))
      ensures Invariant(old(State())) ==> Invariant(State())
      ensures id !in old(waiting) ==> id in after && after[id] == |renamed|
    {
      KeepsInvariant(State(), Send(id));
      if id !in waiting {
        waiting := waiting[id := |accepted|];
        after := after[id := |renamed|];
      }
    }

    /** Continues a response once the tail it waits for has settled. */
    method DeliverResponse(id: ResponseId)
      requires Valid()
      modifies this
      ensures Valid() && State() == Apply(old(State()), Deliver(id))
      ensures Invariant(old(State())) ==>
                && Invariant(State())
                && (id in replies && replies[id] == Sent ==> id in after && Durable(State(), after[id]))
    {
      KeepsInvariant(State(), Deliver(id));
      if id in waiting && id !in replies && waiting[id] <= settled {
        replies := replies[id := if poisoned then Unavailable else Sent];
      }
    }
  }
}
