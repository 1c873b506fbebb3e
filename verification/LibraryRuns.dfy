/** Whole runs: any interleaving of publications, recoveries, purges, reservations and crashes. */
module LibraryRuns {
  import opened Wrappers
  import opened LibraryIndex
  import opened LibraryQuota
  import opened LibraryPublication
  import opened LibrarySafety

  function Run(w: World, steps: seq<Step>): World {
    if steps == [] then w else Apply(Run(w, steps[..|steps| - 1]), steps[|steps| - 1])
  }

  ghost predicate AllowedRun(w: World, steps: seq<Step>) {
    steps != [] ==> AllowedRun(w, steps[..|steps| - 1]) && Allowed(Run(w, steps[..|steps| - 1]), steps[|steps| - 1])
  }

  /** A vault before its first ledger, with or without an INDEX of its own. */
  ghost predicate Initial(w: World) {
    && VaultOk(w.vault) && w.doomed == {}
    && w.ledger.index.None? && w.ledger.beats == map[] && w.ledger.purges == map[] && w.ledger.reservations == map[]
    && (w.ledger.pointer.Some? ==> w.ledger.pointer.value.predecessor < w.vault.next)
  }

  lemma {:induction false} RunKeeps(w: World, steps: seq<Step>)
    requires Invariant(w) && AllowedRun(w, steps)
    ensures Invariant(Run(w, steps))
  {
    if steps != [] {
      hide Invariant, Apply, Allowed;
      RunKeeps(w, steps[..|steps| - 1]);
      StepKeeps(Run(w, steps[..|steps| - 1]), steps[|steps| - 1]);
    }
  }

  lemma InitialHolds(w: World)
    requires Initial(w)
    ensures Invariant(w)
  {
    hide VaultOk;
  }

  // The committed document.

  lemma {:induction false} RecoverRestores(w: World)
    requires Invariant(w) && w.ledger.index.Some?
    ensures var (after, r) := Recover(w, NoFault);
            var doc := w.ledger.index.value;
            r.Ok? && after.ledger == w.ledger && after.vault.pin == doc.id && ReadPinned(after.vault) == Ok(Some(doc))
  {
    hide IndexRows, LedgerOk, DocumentsNameAssets;
    TombstonesStay(w.ledger, w.ledger.index.value.sha);
  }

  lemma RecoverKeepsLedger(w: World, fault: Fault)
    requires Invariant(w) && w.ledger.index.Some?
    ensures Recover(w, fault).0.ledger == w.ledger && Invariant(Recover(w, fault).0)
    ensures Recover(w, fault).1.Ok? ==> ReadPinned(Recover(w, fault).0.vault) == Ok(w.ledger.index)
  {
    hide IndexRows, LedgerOk, DocumentsNameAssets;
    TombstonesStay(w.ledger, w.ledger.index.value.sha);
    RecoverKeeps(w, fault);
  }

  /** After any run with any crashes the document the ledger names exists with its recorded content, and recovery
      ends with exactly that document pinned. */
  lemma {:induction false} CommittedDocumentSurvives(w: World, steps: seq<Step>)
    requires Initial(w) && AllowedRun(w, steps) && Run(w, steps).ledger.index.Some?
    ensures var s := Run(w, steps);
            && Holds(s.vault, s.ledger.index.value)
            && Recover(s, NoFault).1.Ok? && ReadPinned(Recover(s, NoFault).0.vault) == Ok(s.ledger.index)
            && Recover(s, NoFault).0.ledger == s.ledger
  {
    hide Recover, Run, AllowedRun, LedgerOk, VaultOk, PinOk, ReadPinned;
    InitialHolds(w);
    RunKeeps(w, steps);
    RecoverRestores(Run(w, steps));
  }

  // Rows and tombstones.

  /** library_beats always holds the rows of the committed document, and none of a purged beat. */
  lemma {:induction false} LedgerMirrorsIndex(w: World, steps: seq<Step>)
    requires Initial(w) && AllowedRun(w, steps)
    ensures var ledger := Run(w, steps).ledger;
            && (if ledger.index.Some? then IndexRows(ledger.index.value.sha) == Ok(ledger.beats)
                else ledger.beats == map[])
            && (forall id <- ledger.purges :: ledger.purges[id].state != Pending ==> id !in ledger.beats)
            && (ledger.index.Some? ==> DeletedIds(ledger.index.value.sha) <= ledger.purges.Keys)
  {
    hide Run, AllowedRun, IndexRows, PendingOk, VaultOk, PinOk, Holds;
    InitialHolds(w);
    RunKeeps(w, steps);
  }

  /** A purge row is never removed; it only moves from pending to confirmed, and keeps its snapshot. */
  ghost predicate PurgesAdvance(before: map<BeatId, Purge>, after: map<BeatId, Purge>) {
    forall id <- before ::
      && id in after && after[id].assets == before[id].assets && after[id].beat == before[id].beat
      && (after[id].state == before[id].state || (before[id].state == Pending && after[id].state == Confirmed))
  }

  lemma {:induction false} RequestAllAdvances(purges: map<BeatId, Purge>, doc: IndexRef, ids: seq<BeatId>)
    requires RequestAll(purges, doc, ids).Ok?
    ensures PurgesAdvance(purges, RequestAll(purges, doc, ids).value)
  {
    if ids != [] {
      hide ById, Clashes;
      RequestAllAdvances(purges, doc, ids[..|ids| - 1]);
    }
  }

  lemma CommitAdvances(ledger: Ledger, previous: Manifest, p: Publication, rows: Rows)
    requires CheckContents(ledger, previous, p.manifest, rows, p.purgeIds).None?
    ensures PurgesAdvance(ledger.purges, ConfirmPurges(ledger.purges, Removed(ledger, rows)))
  {
    hide Clashes, BeatOf, DeletedIds, Untouched, Purged;
    assert forall id <- Removed(ledger, rows) :: MayLeave(ledger, previous, p.manifest, id);
  }

  lemma {:induction false} PublishLockedAdvances(w: World, p: Publication, rows: Rows, fault: Fault)
    ensures PurgesAdvance(w.ledger.purges, PublishLocked(w, p, rows, fault).0.ledger.purges)
  {
    hide CheckContents, CheckBase, CheckQuota, PurgedAssets, Removed, Fresh, ReadPinned, ConfirmPurges,
         CommitReservations, Erase, Send;
    if CheckContents(w.ledger, Before(w.ledger), p.manifest, rows, p.purgeIds).None? {
      CommitAdvances(w.ledger, Before(w.ledger), p, rows);
    }
  }

  lemma {:induction false} PublishAdvances(w: World, p: Publication, fault: Fault)
    ensures PurgesAdvance(w.ledger.purges, Publish(w, p, fault).0.ledger.purges)
  {
    hide IndexRows, PublishLocked, ReadPinned, DeletedIds;
    if IndexRows(p.manifest).Ok? {
      var rows := IndexRows(p.manifest).value;
      PublishLockedAdvances(w, p, rows, fault);
      PublishLockedAdvances(Bootstrap(w, p.now).0, p, rows, fault);
    }
  }

  lemma QuotaKeepsPurges(ledger: Ledger, beat: BeatId, rid: string, retryDenied: bool, limit: Option<nat>, now: Time)
    ensures Reserve(ledger, beat, rid, retryDenied, limit, now).0.purges == ledger.purges
    ensures Renew(ledger, rid, now).0.purges == Cancel(ledger, rid, now).0.purges == ledger.purges
  {
    hide Expire, BeatHeld, Occupied;
  }

  lemma StepAdvances(w: World, s: Step)
    ensures PurgesAdvance(w.ledger.purges, Apply(w, s).ledger.purges)
  {
    hide IndexRows, Publish, ReadPinned, DeletedIds, Reserve, Renew, Cancel, RequestAll;
    match s
    case DoPublish(p, fault) => PublishAdvances(w, p, fault);
    case DoReserve(beat, rid, retryDenied, limit, now) =>
      QuotaKeepsPurges(w.ledger, beat, rid, retryDenied, limit, now);
    case DoRenew(rid, now) => QuotaKeepsPurges(w.ledger, "", rid, false, None, now);
    case DoCancel(rid, now) => QuotaKeepsPurges(w.ledger, "", rid, false, None, now);
    case DoRequestPurge(ids) =>
      if RequestPurge(w, ids).1.None? {
        RequestAllAdvances(w.ledger.purges, w.ledger.index.value, ids);
      }
    case _ =>
  }

  lemma {:induction false} RunAdvances(w: World, steps: seq<Step>)
    ensures PurgesAdvance(w.ledger.purges, Run(w, steps).ledger.purges)
  {
    if steps != [] {
      hide Apply;
      RunAdvances(w, steps[..|steps| - 1]);
      StepAdvances(Run(w, steps[..|steps| - 1]), steps[|steps| - 1]);
    }
  }

  /** Once a beat is purged, or tombstoned by an old INDEX, no later state lists it and no reservation of it succeeds.
      */
  lemma {:induction false} PurgedBeatsNeverReturn(w: World, first: seq<Step>, more: seq<Step>, id: BeatId, rid: string,
                                                  retryDenied: bool,
                               limit: Option<nat>, now: Time)
    requires Initial(w) && AllowedRun(w, first) && AllowedRun(Run(w, first), more)
    requires var purges := Run(w, first).ledger.purges; id in purges && purges[id].state != Pending
    ensures var s := Run(Run(w, first), more);
            && id !in s.ledger.beats
            && Reserve(s.ledger, id, rid, retryDenied, limit, now)
               == (s.ledger, Reserve(s.ledger, id, rid, retryDenied, limit, now).1)
            && Reserve(s.ledger, id, rid, retryDenied, limit, now).1.Err?
  {
    hide Run, AllowedRun, IndexRows, PendingOk, VaultOk, PinOk, Holds, Expire, BeatHeld, Occupied;
    InitialHolds(w);
    RunKeeps(w, first);
    RunKeeps(Run(w, first), more);
    RunAdvances(Run(w, first), more);
  }

  // Deletion of assets.

  /** The messages a publication deletes. */
  function ErasedBy(w: World, s: Step): set<MsgId> {
    if s.DoPublish? then w.vault.messages.Keys - Apply(w, s).vault.messages.Keys else {}
  }

  function ErasedIn(w: World, steps: seq<Step>): set<MsgId> {
    if steps == [] then {}
    else ErasedIn(w, steps[..|steps| - 1]) + ErasedBy(Run(w, steps[..|steps| - 1]), steps[|steps| - 1])
  }

  ghost predicate AssetOf(purges: map<BeatId, Purge>, a: MsgId, id: BeatId) {
    id in purges && purges[id].state != LegacyTombstone && a in purges[id].assets
  }

  ghost predicate AssetOfSomePurge(purges: map<BeatId, Purge>, a: MsgId) {
    exists id :: AssetOf(purges, a, id)
  }

  /** Under the lock nothing goes but assets of the beats that leave, and that only past the content checks. */
  lemma LockedErases(w: World, p: Publication, rows: Rows, fault: Fault)
    ensures var gone := w.vault.messages.Keys - PublishLocked(w, p, rows, fault).0.vault.messages.Keys;
            && gone <= PurgedAssets(w.ledger, Removed(w.ledger, rows))
            && (CheckContents(w.ledger, Before(w.ledger), p.manifest, rows, p.purgeIds).Some? ==> gone == {})
  {
    hide CheckBase, CheckContents, CheckQuota, CommitTo, ReadPinned, PurgedAssets, Removed, DeletedIds;
  }

  lemma BootstrapHasNoAssets(w: World, now: Time, rows: Rows)
    requires w.ledger.purges == map[]
    ensures var ledger := Bootstrap(w, now).0.ledger; PurgedAssets(ledger, Removed(ledger, rows)) == {}
  {
    hide ReadPinned, IndexRows, DeletedIds, Removed;
    assert forall id <- Bootstrap(w, now).0.ledger.purges :: Bootstrap(w, now).0.ledger.purges[id].assets == {};
  }

  lemma LeavingAssets(w: World, p: Publication, rows: Rows)
    requires CheckContents(w.ledger, Before(w.ledger), p.manifest, rows, p.purgeIds).None?
    ensures forall a <- PurgedAssets(w.ledger, Removed(w.ledger, rows)) :: AssetOfSomePurge(w.ledger.purges, a)
  {
    hide DeletedIds, Removed, Untouched, Purged, Clashes, BeatOf;
    assert forall id <- Removed(w.ledger, rows) :: MayLeave(w.ledger, Before(w.ledger), p.manifest, id);
    forall a <- PurgedAssets(w.ledger, Removed(w.ledger, rows)) ensures AssetOfSomePurge(w.ledger.purges, a) {
      var id :| id in Removed(w.ledger, rows) && id in w.ledger.purges && a in w.ledger.purges[id].assets;
      assert AssetOf(w.ledger.purges, a, id);
    }
  }

  lemma PublishErasesPending(w: World, p: Publication, fault: Fault)
    requires Invariant(w)
    ensures forall a <- w.vault.messages.Keys - Publish(w, p, fault).0.vault.messages.Keys ::
              AssetOfSomePurge(w.ledger.purges, a)
  {
    hide IndexRows, PublishLocked, Bootstrap, ReadPinned, CheckContents, PurgedAssets, VaultOk, PinOk, LedgerOk,
         AssetOfSomePurge;
    if IndexRows(p.manifest).Ok? {
      var rows, initialized := IndexRows(p.manifest).value, Bootstrap(w, p.now).0;
      LockedErases(w, p, rows, fault);
      if CheckContents(w.ledger, Before(w.ledger), p.manifest, rows, p.purgeIds).None? {
        LeavingAssets(w, p, rows);
      }
      if w.ledger.index.None? {
        BootstrapKeepsVault(w, p.now);
        BootstrapHasNoAssets(w, p.now, rows);
        LockedErases(initialized, p, rows, fault);
      }
    }
  }

  lemma AdvanceKeepsAssets(before: map<BeatId, Purge>, after: map<BeatId, Purge>, a: MsgId)
    requires PurgesAdvance(before, after) && AssetOfSomePurge(before, a)
    ensures AssetOfSomePurge(after, a)
  {
    var id :| AssetOf(before, a, id);
    assert AssetOf(after, a, id);
  }

  lemma {:induction false} ErasedAssetsHavePurges(w: World, steps: seq<Step>)
    requires Invariant(w) && AllowedRun(w, steps)
    ensures forall a <- ErasedIn(w, steps) :: AssetOfSomePurge(Run(w, steps).ledger.purges, a)
  {
    if steps != [] {
      hide Invariant, Apply, Allowed, AssetOfSomePurge, PurgesAdvance;
      var before, s := steps[..|steps| - 1], steps[|steps| - 1];
      var v := Run(w, before);
      ErasedAssetsHavePurges(w, before);
      RunKeeps(w, before);
      StepAdvances(v, s);
      StepErases(v, s);
      forall a <- ErasedIn(w, steps) ensures AssetOfSomePurge(Run(w, steps).ledger.purges, a) {
        AdvanceKeepsAssets(v.ledger.purges, Apply(v, s).ledger.purges, a);
      }
    }
  }

  lemma {:induction false} StepErases(w: World, s: Step)
    requires Invariant(w)
    ensures forall a <- ErasedBy(w, s) :: AssetOfSomePurge(w.ledger.purges, a)
  {
    hide Invariant, AssetOfSomePurge, Publish, Recover, Bootstrap, RequestPurge, Reserve, Renew, Cancel;
    if s.DoPublish? {
      PublishErasesPending(w, s.p, s.fault);
    }
  }

  /** From the first asset deleted, whatever crashes follow, the beat is either still in Trash as it was, with a pending
      purge and no other beat using its assets, or gone from the library with a confirmed one. */
  lemma {:induction false} ErasedBeatIsPurgedOrWaiting(w: World, steps: seq<Step>, a: MsgId)
    requires Initial(w) && AllowedRun(w, steps) && a in ErasedIn(w, steps)
    ensures var ledger := Run(w, steps).ledger;
            exists id :: AssetOf(ledger.purges, a, id) && ledger.index.Some?
                         && if IsPending(ledger, id) then PendingOk(ledger, ledger.index.value.sha, id)
                            else ledger.purges[id].state == Confirmed && id !in ledger.beats
  {
    hide Run, AllowedRun, IndexRows, PendingOk, VaultOk, PinOk, Holds;
    InitialHolds(w);
    RunKeeps(w, steps);
    ErasedAssetsHavePurges(w, steps);
    var ledger := Run(w, steps).ledger;
    assert AssetOfSomePurge(ledger.purges, a);
    var id :| AssetOf(ledger.purges, a, id);
  }

  // The chain of committed documents.

  function Chain(w: World, steps: seq<Step>): seq<MsgId> {
    if steps == [] then (if w.ledger.index.Some? then [w.ledger.index.value.id] else [])
    else
      var before, after := Run(w, steps[..|steps| - 1]), Run(w, steps);
      Chain(w, steps[..|steps| - 1]) + (if after.ledger.index.Some? && after.ledger.index != before.ledger.index
                                        then [after.ledger.index.value.id] else [])
  }

  /** A step that changes the committed document is a publication or the first bootstrap; the new document is newer and
      its pointer names the one the caller expected, which was the committed one. */
  ghost predicate Replaces(w: World, s: Step, after: World) {
    && after.ledger.index.Some?
    && (w.ledger.index.Some? ==>
          && s.DoPublish? && s.p.expected == w.ledger.index.value.id < after.ledger.index.value.id
          && after.ledger.index.value.sha == s.p.manifest
          && after.ledger.pointer.Some? && after.ledger.pointer.value.index == after.ledger.index.value.id
          && after.ledger.pointer.value.predecessor == w.ledger.index.value.id)
  }

  lemma {:induction false} StepReplaces(w: World, s: Step)
    requires Invariant(w) && Allowed(w, s)
    ensures var after := Apply(w, s); after.ledger.index == w.ledger.index || Replaces(w, s, after)
  {
    hide IndexRows, AssetMessages, Assets, Publish, ReadPinned, DeletedIds, BeatHeld, Occupied, Expire, LivePending,
         RequestAll, LedgerOk;
    if s.DoPublish? {
      PublishReplaces(w, s.p, s.fault);
    }
  }

  lemma PublishReplaces(w: World, p: Publication, fault: Fault)
    requires Invariant(w)
    ensures var after := Publish(w, p, fault).0; after.ledger.index == w.ledger.index
                                                 || Replaces(w, DoPublish(p, fault), after)
  {
    hide IndexRows, AssetMessages, CheckContents, CheckQuota, PurgedAssets, Removed, Fresh, ConfirmPurges,
         CommitReservations, LedgerOk;
  }

  ghost predicate EndsAt(chain: seq<MsgId>, index: Option<IndexRef>) {
    && (forall i, j | 0 <= i < j < |chain| :: chain[i] < chain[j])
    && if index.Some? then |chain| > 0 && chain[|chain| - 1] == index.value.id else chain == []
  }

  lemma EndsAtNext(chain: seq<MsgId>, index: Option<IndexRef>, next: IndexRef)
    requires EndsAt(chain, index) && (index.Some? ==> index.value.id < next.id)
    ensures EndsAt(chain + [next.id], Some(next))
  {
  }

  /** Committed documents form one chain of ever newer messages that ends at the ledger's. */
  lemma {:induction false} ChainGrows(w: World, steps: seq<Step>)
    requires Invariant(w) && AllowedRun(w, steps)
    ensures EndsAt(Chain(w, steps), Run(w, steps).ledger.index)
  {
    if steps != [] {
      hide Invariant, Apply, Allowed, EndsAt;
      ghost var after := Run(w, steps);
      var before := steps[..|steps| - 1];
      ChainGrows(w, before);
      RunKeeps(w, before);
      StepReplaces(Run(w, before), steps[|steps| - 1]);
      if after.ledger.index != Run(w, before).ledger.index {
        EndsAtNext(Chain(w, before), Run(w, before).ledger.index, after.ledger.index.value);
      } else {
        assert Chain(w, steps) == Chain(w, before);
      }
    } else {
      hide Invariant;
    }
  }
}
