/** Running an interrupted publication or purge again. */
module LibraryRetry {
  import opened Wrappers
  import opened LibraryIndex
  import opened LibraryQuota
  import opened LibraryPublication
  import opened LibrarySafety
  import opened LibraryRuns
  import opened LibraryAssets

  // Publication.

  ghost predicate Committed(r: Result<Published, Error>) {
    r.Ok? && !r.value.same
  }

  ghost predicate Passes(w: World, current: Option<IndexRef>, p: Publication, rows: Rows) {
    && ReadPinned(w.vault) == Ok(current) && !IsSame(w.ledger, current, p.manifest)
    && (w.ledger.index.None? ==> w.ledger.bootstrapPending && w.ledger.pointer.None?)
    && CheckBase(w, current, p, rows).None?
    && CheckContents(w.ledger, Before(w.ledger), p.manifest, rows, p.purgeIds).None?
    && CheckQuota(w.ledger, rows, p.limit, p.now).None?
  }

  lemma PassesExecutes(w: World, current: Option<IndexRef>, p: Publication, rows: Rows, fault: Fault)
    requires Passes(w, current, p, rows)
    ensures PublishLocked(w, p, rows, fault) == Execute(w, current, p, rows, fault)
  {
    hide CheckBase, CheckContents, CheckQuota, Execute, ReadPinned, IsSame;
  }

  /** What an attempt that died has changed: nothing but the vault. */
  lemma DiedInTheVault(w: World, current: Option<IndexRef>, p: Publication, rows: Rows, fault: Fault)
    requires !fault.NoFault?
    ensures Execute(w, current, p, rows, fault).0 == w.(vault := Execute(w, current, p, rows, fault).0.vault)
    ensures Execute(w, current, p, rows, fault).1 == Err(Interrupted)
  {
    hide CommitTo, PurgedAssets, Removed, Erase, Send;
  }

  lemma NextStays(vault: Vault, ids: set<MsgId>)
    ensures Erase(vault, ids).next == vault.next
  {
  }

  lemma Commits(w: World, current: Option<IndexRef>, p: Publication, rows: Rows)
    ensures Execute(w, current, p, rows, NoFault).1.Ok? && !Execute(w, current, p, rows, NoFault).1.value.same
  {
    hide CommitTo, PurgedAssets, Removed, Erase, Send;
  }

  // Any number of attempts that died, with anything else in between.

  /** The same call: only the limit in force and the time may differ. */
  ghost predicate SameCall(p: Publication, q: Publication) {
    q.manifest == p.manifest && q.expected == p.expected && q.purgeIds == p.purgeIds
  }

  /** Attempts of the call that die anywhere, recoveries, purge requests, reservations, and everything in the channel
      but a change of the pin: every step except another publication's. */
  ghost predicate Between(p: Publication, s: Step) {
    match s
    case DoPublish(q, fault) => SameCall(p, q) && !fault.NoFault?
    case ForeignPin(_) => false
    case _ => true
  }

  /** Purge rows of `before` are unchanged, new ones are pending. */
  ghost predicate OnlyRequested(before: map<BeatId, Purge>, after: map<BeatId, Purge>) {
    && (forall id <- before :: id in after && after[id] == before[id])
    && (forall id <- after :: id in before || after[id].state == Pending)
  }

  /** The committed document is pinned, or a copy of the new one. */
  ghost predicate PinnedHere(v: World, p: Publication) {
    var read := ReadPinned(v.vault);
    read.Ok? && (read.value == v.ledger.index
                 || (read.value.Some? && read.value.value.sha == p.manifest && read.value.value.id != p.expected))
  }

  /** How far `v` may be from `w` while the call has not committed. */
  ghost predicate InProgress(w: World, v: World, p: Publication) {
    && Invariant(v) && AssetMessages(v.vault, Assets(p.manifest)) && PinnedHere(v, p)
    && v.ledger == w.ledger.(purges := v.ledger.purges, reservations := v.ledger.reservations)
    && OnlyRequested(w.ledger.purges, v.ledger.purges)
  }

  /** The call is about the committed document and would replace it. */
  ghost predicate Replacing(w: World, p: Publication) {
    w.ledger.index.Some? && p.expected == w.ledger.index.value.id && p.manifest != w.ledger.index.value.sha
  }

  lemma DiedInProgress(v: World, current: Option<IndexRef>, p: Publication, rows: Rows, fault: Fault)
    requires Invariant(v) && AssetMessages(v.vault, Assets(p.manifest)) && IndexRows(p.manifest) == Ok(rows)
    requires Replacing(v, p) && ReadPinned(v.vault) == Ok(current) && PinnedHere(v, p) && !fault.NoFault?
    requires CheckContents(v.ledger, Before(v.ledger), p.manifest, rows, p.purgeIds).None?
    ensures var after := Execute(v, current, p, rows, fault).0;
            && after == v.(vault := after.vault) && PinnedHere(after, p)
               && AssetMessages(after.vault, Assets(p.manifest))
  {
    hide IndexRows, CheckContents, CommitTo, PurgedAssets, Removed, LedgerOk, DocumentsNameAssets, Assets,
         AssetMessages, Erase,
         Send;
    DiedInTheVault(v, current, p, rows, fault);
    DeletesAssetsOnly(v, p, rows);
    var assets := PurgedAssets(v.ledger, Removed(v.ledger, rows));
    var ids := if fault.CutErasing? then assets * fault.erased else assets;
    SomeAssets(v.vault, assets, ids);
    assert assets * assets == assets;
    EraseKeeps(v, ids);
    EraseKeepsVault(v.vault, ids);
    PinnedSurvives(v, ids, current.value);
    var erased := Erase(v.vault, ids);
    NextStays(v.vault, ids);
    SendKeepsVault(erased, Index(p.manifest));
    SentAndPinned(erased, p.manifest);
    PinHidesNoAsset(Send(erased, Index(p.manifest)), erased.next, Assets(p.manifest));
  }

  lemma PinHidesNoAsset(vault: Vault, id: MsgId, assets: set<MsgId>)
    ensures AssetMessages(vault.(pin := id), assets) <==> AssetMessages(vault, assets)
  {
    assert forall a :: AssetMessage(vault.(pin := id), a) <==> AssetMessage(vault, a);
  }

  /** Sending a document leaves the pinned one readable; pinning it makes it the one that is read. */
  lemma SentAndPinned(vault: Vault, m: Manifest)
    requires VaultOk(vault) && IndexRows(m).Ok?
    ensures var sent := Send(vault, Index(m));
            && (vault.pin in vault.messages ==> ReadPinned(sent) == ReadPinned(vault))
            && ReadPinned(sent.(pin := vault.next)) == Ok(Some(IndexRef(vault.next, m)))
  {
    hide IndexRows, DocumentsNameAssets;
  }

  lemma AttemptStaysInProgress(w: World, v: World, p: Publication, q: Publication, rows: Rows, fault: Fault)
    requires Replacing(w, p) && InProgress(w, v, p) && SameCall(p, q) && !fault.NoFault?
             && IndexRows(p.manifest) == Ok(rows)
    ensures InProgress(w, Publish(v, q, fault).0, p)
  {
    hide IndexRows, CheckContents, CheckBase, CheckQuota, Execute, Invariant, ReadPinned, AssetMessages, Assets;
    PublishKeeps(v, q, fault);
    var current := ReadPinned(v.vault).value;
    if CheckContents(v.ledger, Before(v.ledger), q.manifest, rows, q.purgeIds).None? {
      DiedInProgress(v, current, q, rows, fault);
    }
  }

  /** Steps that only touch other messages leave the pinned INDEX as it is. */
  lemma ChannelStaysPinned(v: World, s: Step)
    requires Invariant(v) && Allowed(v, s) && (s.Upload? || s.Lose? || s.Reap?)
    requires ReadPinned(v.vault).Ok? && ReadPinned(v.vault).value.Some?
    ensures ReadPinned(Apply(v, s).vault) == ReadPinned(v.vault) && Apply(v, s).ledger == v.ledger
    ensures forall assets :: AssetMessages(v.vault, assets) ==> AssetMessages(Apply(v, s).vault, assets)
  {
    hide IndexRows, LedgerOk, DocumentsNameAssets;
  }

  /** The steps of the ledger only request purges and move reservations. */
  ghost predicate OnlyRequests(v: World, after: World) {
    && after.vault == v.vault
    && after.ledger == v.ledger.(purges := after.ledger.purges, reservations := after.ledger.reservations)
    && OnlyRequested(v.ledger.purges, after.ledger.purges)
  }

  lemma BootstrapOnlyRequests(v: World, now: Time)
    requires v.ledger.index.Some?
    ensures OnlyRequests(v, Bootstrap(v, now).0)
  {
    hide ReadPinned, IndexRows, Expire, DeletedIds;
  }

  lemma RequestOnlyRequests(v: World, ids: seq<BeatId>)
    ensures OnlyRequests(v, RequestPurge(v, ids).0)
  {
    hide ReadPinned, RequestAll;
    if RequestPurge(v, ids).1.None? {
      RequestAllAdvances(v.ledger.purges, v.ledger.index.value, ids);
      RequestsConfirmNothing(v.ledger.purges, v.ledger.index.value, ids);
    }
  }

  lemma ReservationsOnlyRequest(v: World, s: Step)
    requires s.DoReserve? || s.DoRenew? || s.DoCancel?
    ensures OnlyRequests(v, Apply(v, s))
  {
    hide BeatHeld, Occupied, Expire, LivePending, ValidId, Full;
  }

  lemma {:induction false} StepStaysInProgress(w: World, v: World, p: Publication, rows: Rows, s: Step)
    requires Replacing(w, p) && InProgress(w, v, p) && Allowed(v, s) && Between(p, s)
             && IndexRows(p.manifest) == Ok(rows)
    ensures InProgress(w, Apply(v, s), p)
  {
    hide IndexRows, Invariant, ReadPinned, AssetMessages, Assets, Publish, Recover, Bootstrap, RequestPurge, Reserve,
         Renew, Cancel,
         Erase, Send;
    StepKeeps(v, s);
    match s
    case DoPublish(q, fault) => AttemptStaysInProgress(w, v, p, q, rows, fault);
    case DoRecover(fault) =>
      RecoverKeepsLedger(v, fault);
      RecoveryMovesThePin(v, fault);
    case Upload => ChannelStaysPinned(v, s);
    case Lose(_) => ChannelStaysPinned(v, s);
    case Reap(_) => ChannelStaysPinned(v, s);
    case DoBootstrap(now) => BootstrapOnlyRequests(v, now);
    case DoRequestPurge(ids) => RequestOnlyRequests(v, ids);
    case _ => ReservationsOnlyRequest(v, s);
  }

  /** A recovery leaves the pin or moves it to the committed document. */
  lemma RecoveryMovesThePin(v: World, fault: Fault)
    requires Invariant(v) && v.ledger.index.Some?
    ensures var after := Recover(v, fault).0;
            && (ReadPinned(after.vault) == ReadPinned(v.vault) || ReadPinned(after.vault) == Ok(v.ledger.index))
            && forall assets :: AssetMessages(v.vault, assets) ==> AssetMessages(after.vault, assets)
  {
    hide IndexRows, LedgerOk, DocumentsNameAssets;
    TombstonesStay(v.ledger, v.ledger.index.value.sha);
  }

  ghost predicate AllBetween(p: Publication, steps: seq<Step>) {
    forall s <- steps :: Between(p, s)
  }

  lemma {:induction false} RunStaysInProgress(w: World, steps: seq<Step>, p: Publication, rows: Rows)
    requires Replacing(w, p) && InProgress(w, w, p) && AllowedRun(w, steps) && AllBetween(p, steps)
    requires IndexRows(p.manifest) == Ok(rows)
    ensures InProgress(w, Run(w, steps), p)
  {
    if steps != [] {
      hide IndexRows, InProgress, Apply, Allowed, Between;
      var before, s := steps[..|steps| - 1], steps[|steps| - 1];
      assert s in steps;
      RunStaysInProgress(w, before, p, rows);
      StepStaysInProgress(w, Run(w, before), p, rows, s);
    }
  }

  /** Every purge requested in between fits the document: its beat stands in the Trash of both as it was, and no other
      beat of the new one uses its messages. */
  ghost predicate NewPurgesFit(w: World, v: World, p: Publication, rows: Rows) {
    forall id <- v.ledger.purges.Keys - w.ledger.purges.Keys ::
      Untouched(Before(w.ledger), p.manifest, rows, id) && !Clashes(p.manifest, id, v.ledger.purges[id].assets)
  }

  /** Nothing but the rows of purges requested in between tells the checks of `v` from those of `w`. */
  lemma SameChecks(w: World, v: World, p: Publication, rows: Rows)
    requires Invariant(v) && w.ledger.index.Some? && OnlyRequested(w.ledger.purges, v.ledger.purges)
    requires v.ledger == w.ledger.(purges := v.ledger.purges, reservations := v.ledger.reservations)
    requires forall id <- p.purgeIds :: MayLeave(w.ledger, Before(w.ledger), p.manifest, id)
    ensures forall id <- p.purgeIds :: MayLeave(v.ledger, Before(w.ledger), p.manifest, id)
    ensures forall id <- v.ledger.purges.Keys - w.ledger.purges.Keys ::
              IsPending(v.ledger, id) && id in v.ledger.beats && id !in p.purgeIds
    ensures forall id <- w.ledger.purges :: IsPending(v.ledger, id) == IsPending(w.ledger, id)
    ensures forall id :: Purged(v.ledger, Before(w.ledger), id) <==> Purged(w.ledger, Before(w.ledger), id)
  {
    hide IndexRows, Clashes, BeatOf, VaultOk, PinOk, Holds, DeletedIds;
    forall id <- v.ledger.purges.Keys - w.ledger.purges.Keys
      ensures IsPending(v.ledger, id) && id in v.ledger.beats && id !in p.purgeIds
    {
      assert IsPending(v.ledger, id) && PendingOk(v.ledger, Before(w.ledger), id);
    }
  }

  lemma ContentsStillPass(w: World, v: World, p: Publication, rows: Rows)
    requires Invariant(v) && w.ledger.index.Some? && OnlyRequested(w.ledger.purges, v.ledger.purges)
    requires v.ledger == w.ledger.(purges := v.ledger.purges, reservations := v.ledger.reservations)
    requires CheckContents(w.ledger, Before(w.ledger), p.manifest, rows, p.purgeIds).None?
    ensures CheckContents(v.ledger, Before(w.ledger), p.manifest, rows, p.purgeIds).None? <==>
              NewPurgesFit(w, v, p, rows)
  {
    hide Invariant, Clashes, BeatOf, Untouched, DeletedIds, MayLeave, Purged, IsPending;
    RemovedIsAsked(w.ledger, p, rows);
    SameChecks(w, v, p, rows);
  }

  /** The document, rows and place in the chain are those of the uninterrupted call, and so is every purge it knew. */
  ghost predicate SameOutcome(clean: Ledger, after: Ledger) {
    && clean.index.Some? && after.index.Some? && clean.index.value.sha == after.index.value.sha
       && clean.beats == after.beats
    && clean.pointer.Some? && after.pointer.Some? && clean.pointer.value.predecessor == after.pointer.value.predecessor
    && clean.pointer.value.revision == after.pointer.value.revision
    && forall id <- clean.purges :: id in after.purges && after.purges[id] == clean.purges[id]
  }

  /** The ledger once the call has committed under this id: the document and its rows, one place further in the chain,
      its purges confirmed and the reservations of its new beats used up. */
  ghost predicate CommittedLedger(before: Ledger, p: Publication, rows: Rows, id: MsgId, after: Ledger) {
    var added := rows.Keys - before.beats.Keys;
    && after.index == Some(IndexRef(id, p.manifest)) && after.beats == rows && !after.bootstrapPending
    && after.pointer == Some(Pointer(id, p.expected,
                                     if before.pointer.Some? then before.pointer.value.revision + 1 else 1))
    && after.purges.Keys == before.purges.Keys && after.reservations.Keys == before.reservations.Keys
    && (forall b <- before.purges ::
          after.purges[b]
          == if b in p.purgeIds then before.purges[b].(state := Confirmed) else before.purges[b])
    && forall rid <- before.reservations ::
         after.reservations[rid]
         == if exists b <- added :: "new:" + b == rid
            then before.reservations[rid].(state := ReservationState.Committed) else before.reservations[rid]
  }

  /** The channel then: the document pinned, the files of the purged beats gone, everything else as it was. */
  ghost predicate CommittedVault(v: World, p: Publication, id: MsgId, next: MsgId, after: Vault) {
    && after.pin == id && after.next == next
    && (forall a :: a in after.messages
                    <==> a == id || (a in v.vault.messages
                                     && !exists b <- p.purgeIds :: b in v.ledger.purges
                                                                   && a in v.ledger.purges[b].assets))
    && forall a <- after.messages :: after.messages[a] == if a == id then Index(p.manifest) else v.vault.messages[a]
  }

  /** Commits as a new document, under the id of the pinned copy if there is one and of the next message otherwise, and
      sets the replaced one for deletion. */
  ghost predicate CommittedHere(v: World, p: Publication, rows: Rows, after: World) {
    var read, next := ReadPinned(v.vault), v.vault.next;
    var copied := read.Ok? && read.value != v.ledger.index;
    var id := if copied then v.vault.pin else next;
    && CommittedLedger(v.ledger, p, rows, id, after.ledger)
    && CommittedVault(v, p, id, if copied then next else next + 1, after.vault)
    && after.doomed == v.doomed + {p.expected}
  }

  lemma {:induction false} FinalAttempt(v: World, p: Publication, rows: Rows)
    requires Invariant(v) && AssetMessages(v.vault, Assets(p.manifest)) && PinnedHere(v, p) && Replacing(v, p)
    requires IndexRows(p.manifest) == Ok(rows) && ReadPinned(v.vault).Ok?
    ensures var (after, r) := Publish(v, p, NoFault);
            && (Committed(r) <==> CheckContents(v.ledger, Before(v.ledger), p.manifest, rows, p.purgeIds).None?
                                  && RoomFor(v.ledger, rows, p.limit, p.now))
            && (Committed(r) ==> CommittedHere(v, p, rows, after))
  {
    hide IndexRows, CheckContents, CheckQuota, Execute, Invariant, AssetMessages, Assets, CommittedHere, Adopts,
         RoomFor;
    QuotaExactly(v.ledger, rows, p.limit, p.now);
    var current := ReadPinned(v.vault).value;
    NotSameYet(v, p, current);
    Commits(v, current, p, rows);
    if CheckContents(v.ledger, Before(v.ledger), p.manifest, rows, p.purgeIds).None? {
      ExecutedHere(v, current, p, rows);
    }
  }

  lemma NotSameYet(v: World, p: Publication, current: Option<IndexRef>)
    requires Invariant(v) && Replacing(v, p) && PinnedHere(v, p) && ReadPinned(v.vault) == Ok(current)
    ensures !IsSame(v.ledger, current, p.manifest) && forall rows :: CheckBase(v, current, p, rows).None?
  {
    hide IndexRows, LedgerOk, VaultOk, PinOk;
  }

  lemma CommitsLedger(ledger: Ledger, p: Publication, rows: Rows, id: MsgId)
    requires Removed(ledger, rows) == p.purgeIds
    ensures CommittedLedger(ledger, p, rows, id, CommitTo(ledger, id, p.manifest, rows, p.expected))
  {
    assert forall b :: ReservationId(b) == "new:" + b;
  }

  lemma CommitsVault(v: World, p: Publication, sent: bool, id: MsgId)
    requires id == (if sent then v.vault.next else v.vault.pin)
    requires !sent ==> v.vault.pin in v.vault.messages && v.vault.messages[v.vault.pin] == Index(p.manifest)
                       && id !in PurgedAssets(v.ledger, p.purgeIds)
    ensures var erased := Erase(v.vault, PurgedAssets(v.ledger, p.purgeIds));
            CommittedVault(v, p, id, if sent then v.vault.next + 1 else v.vault.next,
                           if sent then Send(erased, Index(p.manifest)).(pin := id) else erased)
  {
    var assets := PurgedAssets(v.ledger, p.purgeIds);
    assert forall a :: a in assets
                       <==> exists b <- p.purgeIds :: b in v.ledger.purges && a in v.ledger.purges[b].assets;
  }

  /** What the pin tells of the copy to adopt. */
  lemma PinnedCopy(v: World, p: Publication, current: Option<IndexRef>)
    requires Invariant(v) && v.ledger.index.Some? && p.expected == v.ledger.index.value.id
    requires ReadPinned(v.vault) == Ok(current) && PinnedHere(v, p)
    ensures current.Some? && current.value.id == v.vault.pin && v.vault.pin in v.vault.messages
    ensures v.vault.messages[v.vault.pin] == Index(current.value.sha)
    ensures Adopts(current, p) <==> current != v.ledger.index
    ensures Adopts(current, p) ==> current.value.sha == p.manifest
    ensures 0 < p.expected < v.vault.next && (current != v.ledger.index ==> p.expected != v.vault.pin)
  {
    hide IndexRows, LedgerOk, PinOk, DocumentsNameAssets;
  }

  lemma ExecutedHere(v: World, current: Option<IndexRef>, p: Publication, rows: Rows)
    requires Invariant(v) && AssetMessages(v.vault, Assets(p.manifest)) && IndexRows(p.manifest) == Ok(rows)
    requires v.ledger.index.Some? && p.expected == v.ledger.index.value.id
    requires ReadPinned(v.vault) == Ok(current) && PinnedHere(v, p)
    requires CheckContents(v.ledger, Before(v.ledger), p.manifest, rows, p.purgeIds).None?
    ensures CommittedHere(v, p, rows, Execute(v, current, p, rows, NoFault).0)
  {
    hide IndexRows, CheckContents, CommitTo, PurgedAssets, Removed, LedgerOk, DocumentsNameAssets, Assets,
         AssetMessages, Adopts, PinnedHere, ReadPinned, CommittedLedger, CommittedVault, Send, Erase, Invariant;
    DeletesAssetsOnly(v, p, rows);
    RemovedIsAsked(v.ledger, p, rows);
    PinnedCopy(v, p, current);
    var assets := PurgedAssets(v.ledger, Removed(v.ledger, rows));
    NextStays(v.vault, assets);
    PinnedIsNoAsset(v.vault, assets);
    var id := if Adopts(current, p) then current.value.id else v.vault.next;
    CommitsLedger(v.ledger, p, rows, id);
    CommitsVault(v, p, !Adopts(current, p), id);
    assert {p.expected} - {0, id} == {p.expected};
  }

  lemma PinnedIsNoAsset(vault: Vault, assets: set<MsgId>)
    requires AssetMessages(vault, assets)
    requires vault.pin in vault.messages && vault.messages[vault.pin].Index?
    ensures vault.pin !in assets
  {
    assert forall a <- assets :: AssetMessage(vault, a);
  }

  lemma RemovedIsAsked(ledger: Ledger, p: Publication, rows: Rows)
    requires CheckContents(ledger, Before(ledger), p.manifest, rows, p.purgeIds).None?
    ensures Removed(ledger, rows) == p.purgeIds
  {
    hide Clashes, BeatOf, DeletedIds, Untouched, Purged, MayLeave, Fresh;
  }

  /** A call that passed its checks once may be tried again after any number of attempts that died anywhere, with any
      steps but another publication in between, for as long as it takes. The next attempt commits if and only if the
      purges requested meanwhile fit the document and every new beat still has its reservation and, under the limit
      then in force, a place; it then leaves what the uninterrupted call would have left, and sends no second copy of a
      pinned one. */
  lemma {:induction false} PublishEventually(w: World, p: Publication, rows: Rows, steps: seq<Step>, limit: Option<nat>,
                                             later: Time)
    requires Invariant(w) && Replacing(w, p) && PinnedHere(w, p) && AssetMessages(w.vault, Assets(p.manifest))
    requires IndexRows(p.manifest) == Ok(rows)
    requires CheckContents(w.ledger, Before(w.ledger), p.manifest, rows, p.purgeIds).None?
    requires AllowedRun(w, steps) && AllBetween(p, steps)
    ensures var v := Run(w, steps);
            var (after, r) := Publish(v, p.(limit := limit, now := later), NoFault);
            && ReadPinned(v.vault).Ok?
            && (Committed(r) <==> NewPurgesFit(w, v, p, rows) && RoomFor(v.ledger, rows, limit, later))
            && (Committed(r) ==> CommittedHere(v, p, rows, after))
            && (Committed(r) && Committed(Publish(w, p, NoFault).1) ==>
                  SameOutcome(Publish(w, p, NoFault).0.ledger, after.ledger))
  {
    hide IndexRows, CheckContents, RoomFor, Publish, Invariant, ReadPinned, AssetMessages, Assets, NewPurgesFit, Run,
         AllowedRun,
         CommittedHere, SameOutcome;
    RunStaysInProgress(w, steps, p, rows);
    var v, again := Run(w, steps), p.(limit := limit, now := later);
    ContentsStillPass(w, v, p, rows);
    FinalAttempt(v, again, rows);
    FinalAttempt(w, p, rows);
    if Committed(Publish(v, again, NoFault).1) {
      SameCallHere(v, p, again, rows, Publish(v, again, NoFault).0);
    }
    if Committed(Publish(v, again, NoFault).1) && Committed(Publish(w, p, NoFault).1) {
      LikeUninterrupted(w, v, p, again, rows);
    }
  }

  lemma SameCallHere(v: World, p: Publication, again: Publication, rows: Rows, after: World)
    requires SameCall(p, again) && CommittedHere(v, again, rows, after)
    ensures CommittedHere(v, p, rows, after)
  {
    hide CommitTo, ReadPinned, PurgedAssets, Holds;
  }

  lemma LikeUninterrupted(w: World, v: World, p: Publication, again: Publication, rows: Rows)
    requires InProgress(w, v, p) && SameCall(p, again) && ReadPinned(v.vault).Ok? && ReadPinned(w.vault).Ok?
    requires CommittedHere(w, p, rows, Publish(w, p, NoFault).0)
             && CommittedHere(v, again, rows, Publish(v, again, NoFault).0)
    ensures SameOutcome(Publish(w, p, NoFault).0.ledger, Publish(v, again, NoFault).0.ledger)
  {
    hide IndexRows, Invariant, ReadPinned, AssetMessages, Assets, Publish, CommitReservations, Holds, PurgedAssets,
         PinnedHere;
  }

  // The same call after it committed.

  /** The call again, whatever becomes of it, and everything else but another publication or a foreign pin. */
  ghost predicate Beside(p: Publication, s: Step) {
    match s
    case DoPublish(q, _) => SameCall(p, q)
    case ForeignPin(_) => false
    case _ => true
  }

  ghost predicate AllBeside(p: Publication, steps: seq<Step>) {
    forall s <- steps :: Beside(p, s)
  }

  /** The document the call committed is still the pinned and the committed one, at its place in the chain. */
  ghost predicate StillCommitted(v: World, p: Publication, id: MsgId) {
    && Invariant(v) && v.ledger.index == Some(IndexRef(id, p.manifest)) && ReadPinned(v.vault) == Ok(v.ledger.index)
    && v.ledger.pointer.Some? && v.ledger.pointer.value.predecessor == p.expected
  }

  /** Publishing it again reports it and changes neither ledger nor channel. */
  lemma RepeatReports(v: World, p: Publication, q: Publication, rows: Rows, id: MsgId, fault: Fault)
    requires StillCommitted(v, p, id) && SameCall(p, q) && IndexRows(p.manifest) == Ok(rows)
    ensures Publish(v, q, fault)
         == (v.(doomed := v.doomed + ({p.expected} - {0, id})), Ok(Published(id, p.expected, true)))
  {
    hide IndexRows, Invariant, ReadPinned, CheckBase, CheckContents, CheckQuota, Execute;
  }

  lemma StepStaysCommitted(v: World, p: Publication, rows: Rows, id: MsgId, s: Step)
    requires StillCommitted(v, p, id) && Allowed(v, s) && Beside(p, s) && IndexRows(p.manifest) == Ok(rows)
    ensures StillCommitted(Apply(v, s), p, id)
  {
    hide IndexRows, Invariant, ReadPinned, Publish, Recover, Bootstrap, RequestPurge, Reserve, Renew, Cancel, Erase,
         Send;
    StepKeeps(v, s);
    match s
    case DoPublish(q, fault) => RepeatReports(v, p, q, rows, id, fault);
    case DoRecover(fault) =>
      RecoverKeepsLedger(v, fault);
      RecoveryMovesThePin(v, fault);
    case Upload => ChannelStaysPinned(v, s);
    case Lose(_) => ChannelStaysPinned(v, s);
    case Reap(_) => ChannelStaysPinned(v, s);
    case DoBootstrap(now) => BootstrapOnlyRequests(v, now);
    case DoRequestPurge(ids) => RequestOnlyRequests(v, ids);
    case _ => ReservationsOnlyRequest(v, s);
  }

  lemma {:induction false} RunStaysCommitted(v: World, steps: seq<Step>, p: Publication, rows: Rows, id: MsgId)
    requires StillCommitted(v, p, id) && AllowedRun(v, steps) && AllBeside(p, steps)
    requires IndexRows(p.manifest) == Ok(rows)
    ensures StillCommitted(Run(v, steps), p, id)
  {
    if steps != [] {
      hide IndexRows, StillCommitted, Apply, Allowed, Beside;
      var before, s := steps[..|steps| - 1], steps[|steps| - 1];
      assert s in steps;
      RunStaysCommitted(v, before, p, rows, id);
      StepStaysCommitted(Run(v, before), p, rows, id, s);
    }
  }

  lemma CommitStays(w: World, p: Publication, rows: Rows, current: Option<IndexRef>)
    requires Invariant(w) && AssetMessages(w.vault, Assets(p.manifest)) && IndexRows(p.manifest) == Ok(rows)
    requires Passes(w, current, p, rows)
    ensures var (clean, r) := PublishLocked(w, p, rows, NoFault);
            Committed(r) && r.value.previous == p.expected && StillCommitted(clean, p, r.value.id)
  {
    hide IndexRows, CheckContents, CheckQuota, CheckBase, PurgedAssets, Removed, LedgerOk, DocumentsNameAssets, Assets,
         AssetMessage, ConfirmPurges, CommitReservations, Invariant;
    PublishLockedKeeps(w, p, rows, NoFault);
    PassesExecutes(w, current, p, rows, NoFault);
    Commits(w, current, p, rows);
    DeletesAssetsOnly(w, p, rows);
    NextIsPositive(w);
    if Adopts(current, p) {
      PinnedSurvives(w, PurgedAssets(w.ledger, Removed(w.ledger, rows)), current.value);
    }
    var clean := Execute(w, current, p, rows, NoFault).0;
    assert ReadPinned(clean.vault) == Ok(clean.ledger.index);
  }

  /** When only the reply was lost, publishing again at any later time reports the committed document and changes
      neither ledger nor channel, whatever but another publication happened in between. */
  lemma CommittedAgain(w: World, p: Publication, rows: Rows, current: Option<IndexRef>, steps: seq<Step>,
                       limit: Option<nat>, later: Time, fault: Fault)
    requires Invariant(w) && AssetMessages(w.vault, Assets(p.manifest)) && IndexRows(p.manifest) == Ok(rows)
    requires Passes(w, current, p, rows)
    requires AllowedRun(PublishLocked(w, p, rows, NoFault).0, steps) && AllBeside(p, steps)
    ensures var (clean, r) := PublishLocked(w, p, rows, NoFault);
            var v := Run(clean, steps);
            && Committed(r)
            && Publish(v, p.(limit := limit, now := later), fault)
               == (v.(doomed := v.doomed + ({p.expected} - {0, r.value.id})), Ok(r.value.(same := true)))
  {
    hide IndexRows, PublishLocked, Publish, Invariant, Passes, AssetMessages, StillCommitted, Run, AllowedRun,
         AllBeside;
    CommitStays(w, p, rows, current);
    var (clean, r) := PublishLocked(w, p, rows, NoFault);
    RunStaysCommitted(clean, steps, p, rows, r.value.id);
    RepeatReports(Run(clean, steps), p, p.(limit := limit, now := later), rows, r.value.id, fault);
  }

  // The first publication of a new vault.

  /** Two ledgers that agree on the committed document, its rows, the purges and the reservations. */
  ghost predicate SameCommitment(a: Ledger, b: Ledger) {
    a.index == b.index && a.beats == b.beats && a.purges == b.purges && a.reservations == b.reservations
  }

  lemma FirstPassed(w: World, p: Publication, rows: Rows)
    requires w.ledger.index.None? && w.ledger.beats == map[] && w.ledger.purges == map[] && Passes(w, None, p, rows)
    ensures rows == map[] && DeletedIds(p.manifest) == {} && p.expected == 0
    ensures forall id <- p.manifest.deleted :: id == ""
    ensures CommitReservations(w.ledger.reservations, {}) == w.ledger.reservations
            && ConfirmPurges(w.ledger.purges, {}) == w.ledger.purges
  {
    hide CheckQuota;
    assert DeletedIds(p.manifest) == {};
    forall id <- p.manifest.deleted ensures id == "" {
      assert id in DeletedIds(p.manifest) <==> id != "";
    }
  }

  /** Dying between pin and commit of the first document, the retry bootstraps from the pinned copy and reaches the same
      commitment if and only if the document lists no tombstone at all, not even an empty one. */
  lemma {:induction false} FirstPublicationAgain(w: World, p: Publication, rows: Rows, later: Time)
    requires Invariant(w) && w.ledger.index.None? && IndexRows(p.manifest) == Ok(rows) && Passes(w, None, p, rows)
    ensures var (clean, died) := (PublishLocked(w, p, rows, NoFault).0, PublishLocked(w, p, rows, CutAfterPin).0);
            var (second, r) := Publish(died, p.(now := later), NoFault);
            && (r.Ok? <==> p.manifest.deleted == [])
            && (r.Ok? ==> SameCommitment(clean.ledger, second.ledger) && second.vault == clean.vault)
            && (r.Err? ==> second == died)
  {
    hide IndexRows, CheckContents, CheckQuota, CheckBase, VaultOk, ConfirmPurges, TombstoneError;
    PassesExecutes(w, None, p, rows, NoFault);
    PassesExecutes(w, None, p, rows, CutAfterPin);
    FirstPassed(w, p, rows);
    assert Removed(w.ledger, rows) == {} && Fresh(w.ledger, rows) == {};
    assert PurgedAssets(w.ledger, {}) == {};
    assert Erase(w.vault, {}) == w.vault;
    NextIsPositive(w);
    var died := Execute(w, None, p, rows, CutAfterPin).0;
    assert ReadPinned(died.vault) == Ok(Some(IndexRef(w.vault.next, p.manifest)));
    NoTombstoneError(p.manifest.deleted, rows);
    if p.manifest.deleted != [] {
      assert p.manifest.deleted[0] in p.manifest.deleted && !ValidId("");
    }
  }

  // Any number of attempts at the first publication.

  /** How far the first publication has come: nothing pinned, its document pinned, or adopted as the committed one. */
  ghost predicate FirstInProgress(w: World, v: World, p: Publication) {
    && Invariant(v) && AssetMessages(v.vault, Assets(p.manifest))
    && (if v.ledger.index.None? then
          v.ledger == w.ledger && (v.vault.pin == 0 || ReadPinned(v.vault)
                                                       == Ok(Some(IndexRef(v.vault.pin, p.manifest))))
        else
          p.manifest.deleted == [] && ReadPinned(v.vault) == Ok(v.ledger.index)
          && v.ledger == w.ledger.(index := Some(IndexRef(v.vault.pin, p.manifest)),
                                   reservations := v.ledger.reservations))
  }

  /** A vault without a ledger that is waiting for its first document, and a document that may be the first. */
  ghost predicate First(w: World, p: Publication) {
    && w.ledger.index.None? && w.ledger.bootstrapPending && w.ledger.pointer.None? && w.ledger.beats == map[]
    && w.ledger.purges == map[] && IndexRows(p.manifest) == Ok(map[]) && DeletedIds(p.manifest) == {} && p.expected == 0
    && p.purgeIds == {}
  }

  lemma FirstHasNoBeats(m: Manifest)
    requires IndexRows(m) == Ok(map[])
    ensures m.beats == [] && m.trash == []
  {
    hide IndexRows;
    if AllBeats(m) != [] {
      ListedHasRow(m, AllBeats(m)[0]);
    }
  }

  lemma ListedHasRow(m: Manifest, beat: Beat)
    requires IndexRows(m).Ok? && beat in AllBeats(m)
    ensures beat.id in IndexRows(m).value
  {
    hide IndexRows;
    IndexRowsSay(m);
    assert Lists(AllBeats(m), beat.id);
  }

  /** Without a pin the first publication passes all its checks. */
  lemma FirstPasses(v: World, p: Publication)
    requires First(v, p) && Invariant(v) && v.vault.pin == 0
    ensures Passes(v, None, p, map[]) && ReadPinned(v.vault) == Ok(None)
  {
    hide IndexRows, VaultOk, MayLeave, Clashes, BeatOf;
    var none: Rows := map[];
    FirstHasNoBeats(p.manifest);
    assert Removed(v.ledger, none) == {} && Fresh(v.ledger, none) == {} && DeletedIds(NO_MANIFEST) == {};
  }

  /** Without a pin, these are exactly the documents that pass as the first. */
  lemma {:induction false} FirstExactly(v: World, p: Publication, rows: Rows)
    requires Invariant(v) && v.ledger.index.None? && v.vault.pin == 0 && IndexRows(p.manifest) == Ok(rows)
    ensures First(v, p) <==> Passes(v, None, p, rows)
  {
    hide IndexRows, VaultOk, MayLeave, Clashes, BeatOf, CheckQuota, ReadPinned, Fresh;
    if First(v, p) {
      FirstPasses(v, p);
    } else if Passes(v, None, p, rows) {
      FirstPassed(v, p, rows);
    }
  }

  /** Executing it deletes nothing; each crash leaves the pin at none, or at the document. */
  lemma {:induction false} FirstExecutes(v: World, p: Publication, fault: Fault)
    requires First(v, p) && Invariant(v) && v.vault.pin == 0 && AssetMessages(v.vault, Assets(p.manifest))
    ensures var (after, r) := Execute(v, None, p, map[], fault);
            && AssetMessages(after.vault, Assets(p.manifest))
            && if fault.NoFault? then
                 Committed(r) && after.ledger.index == Some(IndexRef(v.vault.next, p.manifest))
                 && after.ledger.beats == map[]
                 && after.ledger.purges == map[] && ReadPinned(after.vault) == Ok(after.ledger.index)
               else
                 after.ledger == v.ledger
                 && (after.vault.pin == 0 || ReadPinned(after.vault) == Ok(Some(IndexRef(after.vault.pin, p.manifest))))
  {
    hide IndexRows, DocumentsNameAssets, Assets, AssetMessages;
    var none: Rows := map[];
    assert Removed(v.ledger, none) == {} && Fresh(v.ledger, none) == {};
    assert PurgedAssets(v.ledger, {}) == {} && forall some: set<MsgId> :: {} * some == {};
    assert Erase(v.vault, {}) == v.vault;
    SendKeepsVault(v.vault, Index(p.manifest));
    SentAndPinned(v.vault, p.manifest);
    PinHidesNoAsset(Send(v.vault, Index(p.manifest)), v.vault.next, Assets(p.manifest));
  }

  /** With the document pinned, a bootstrap adopts it if and only if it lists no tombstone at all, not even an empty
      one. */
  lemma {:induction false} FirstBootstraps(v: World, p: Publication, now: Time)
    requires First(v, p) && ReadPinned(v.vault) == Ok(Some(IndexRef(v.vault.pin, p.manifest)))
    ensures var (after, error) := Bootstrap(v, now);
            && (error.None? <==> p.manifest.deleted == [])
            && after == (if error.None? then v.(ledger := v.ledger.(index := Some(IndexRef(v.vault.pin, p.manifest))))
                         else v)
  {
    hide IndexRows, ReadPinned, TombstoneError;
    NoTombstoneError(p.manifest.deleted, map[]);
    if p.manifest.deleted != [] {
      var id := p.manifest.deleted[0];
      assert id in p.manifest.deleted && (id in DeletedIds(p.manifest) <==> id != "");
    } else {
      assert WithTombstones(v.ledger.purges, {}) == map[];
    }
  }

  /** An attempt while the document is already committed reports it and changes nothing. */
  lemma FirstIsSame(v: World, p: Publication, fault: Fault)
    requires v.ledger.index.Some? && v.ledger.index.value.sha == p.manifest && ReadPinned(v.vault) == Ok(v.ledger.index)
    requires v.ledger.pointer.None? && IndexRows(p.manifest) == Ok(map[])
    ensures PublishLocked(v, p, map[], fault) == (v, Ok(Published(v.ledger.index.value.id, 0, true)))
    ensures Publish(v, p, fault) == PublishLocked(v, p, map[], fault)
  {
    hide IndexRows, ReadPinned;
    assert {0} - {0, v.ledger.index.value.id} == {} && v.doomed + {} == v.doomed;
  }

  lemma {:induction false} FirstAttempt(w: World, v: World, p: Publication, q: Publication, fault: Fault)
    requires First(w, p) && FirstInProgress(w, v, p) && SameCall(p, q)
    ensures var (after, r) := Publish(v, q, fault);
            && (fault.NoFault? ==>
                  && (r.Ok? <==> v.vault.pin == 0 || p.manifest.deleted == [])
                  && (r.Ok? ==> after.ledger.index == Some(IndexRef(IdOf(after.ledger.index), p.manifest))
                                && after.ledger.beats == map[] && after.ledger.purges == map[]
                                && ReadPinned(after.vault) == Ok(after.ledger.index)
                                && after.ledger.index.value.id == if v.vault.pin == 0 then v.vault.next
                                   else v.vault.pin))
            && (!fault.NoFault? || (r.Err? && v.ledger.index.None?) ==> FirstInProgress(w, after, p))
  {
    hide IndexRows, ReadPinned, Execute, PublishLocked, Bootstrap, Invariant, Passes, Assets, AssetMessages, DeletedIds;
    PublishKeeps(v, q, fault);
    if v.ledger.index.Some? {
      FirstIsSame(v, q, fault);
      PinOfCommitted(v);
    } else if v.vault.pin == 0 {
      FirstPasses(v, q);
      PassesExecutes(v, None, q, map[], fault);
      FirstExecutes(v, q, fault);
    } else {
      PinOfCopy(v, p);
      FirstBootstraps(v, q, q.now);
      if p.manifest.deleted == [] {
        FirstIsSame(Bootstrap(v, q.now).0, q, fault);
        assert Publish(v, q, fault) == PublishLocked(Bootstrap(v, q.now).0, q, map[], fault);
      } else {
        assert Bootstrap(v, q.now).1.Some?;
        assert Publish(v, q, fault).1.Err?;
      }
    }
  }

  lemma PinOfCommitted(v: World)
    requires v.ledger.index.Some? && ReadPinned(v.vault) == Ok(v.ledger.index)
    ensures v.vault.pin == v.ledger.index.value.id != 0
  {
    hide IndexRows;
  }

  lemma PinOfCopy(v: World, p: Publication)
    requires v.vault.pin != 0
    ensures ReadPinned(v.vault) != Ok(None)
  {
    hide IndexRows;
  }

  lemma {:induction false} FirstStep(w: World, v: World, p: Publication, s: Step)
    requires First(w, p) && FirstInProgress(w, v, p) && Allowed(v, s) && Between(p, s)
    ensures FirstInProgress(w, Apply(v, s), p)
  {
    hide IndexRows, ReadPinned, Publish, Bootstrap, Recover, RequestPurge, Reserve, Renew, Cancel, Invariant, Assets,
         AssetMessages,
         DeletedIds, Erase, Send;
    StepKeeps(v, s);
    match s
    case DoPublish(q, fault) => FirstAttempt(w, v, p, q, fault);
    case DoBootstrap(now) => FirstBootstrapStep(w, v, p, now);
    case DoRecover(fault) => FirstRecovery(w, v, p, fault);
    case DoRequestPurge(ids) => FirstRequest(w, v, p, ids);
    case DoReserve(_, _, _, _, _) => FirstReservations(v, s);
    case DoRenew(_, _) => FirstReservations(v, s);
    case DoCancel(_, _) => FirstReservations(v, s);
    case _ => FirstChannel(v, s);
  }

  lemma FirstBootstrapStep(w: World, v: World, p: Publication, now: Time)
    requires First(w, p) && FirstInProgress(w, v, p)
    ensures var after := Bootstrap(v, now).0;
            && after.vault == v.vault
            && (after.ledger == v.ledger || (v.ledger.index.None? && p.manifest.deleted == [] && v.vault.pin != 0
                  && after.ledger == v.ledger.(index := Some(IndexRef(v.vault.pin, p.manifest)))
                  && ReadPinned(v.vault) == Ok(after.ledger.index))
                || (v.ledger.index.Some? && after.ledger == v.ledger.(reservations := after.ledger.reservations)))
  {
    hide IndexRows, Invariant, Assets, AssetMessages, DeletedIds, Expire, TombstoneError, WithTombstones;
    if v.ledger.index.None? && v.vault.pin != 0 {
      FirstBootstraps(v, p, now);
    }
  }

  lemma FirstRecovery(w: World, v: World, p: Publication, fault: Fault)
    requires First(w, p) && FirstInProgress(w, v, p)
    ensures Recover(v, fault).0 == v
  {
    hide IndexRows, ReadPinned, Invariant, Assets, AssetMessages;
    assert WithTombstones(v.ledger.purges, {}) == v.ledger.purges;
  }

  lemma FirstRequest(w: World, v: World, p: Publication, ids: seq<BeatId>)
    requires First(w, p) && FirstInProgress(w, v, p)
    ensures RequestPurge(v, ids).0 == v
  {
    hide IndexRows, ReadPinned, Invariant, Assets, AssetMessages, RequestAll;
    FirstHasNoBeats(p.manifest);
    if v.ledger.index.Some? {
      NothingRequested(v.ledger.index.value, ids);
    }
  }

  lemma {:induction false} NothingRequested(doc: IndexRef, ids: seq<BeatId>)
    requires doc.sha.trash == []
    ensures RequestAll(map[], doc, ids).Ok? ==> RequestAll(map[], doc, ids).value == map[]
  {
    if ids != [] {
      NothingRequested(doc, ids[..|ids| - 1]);
    }
  }

  lemma FirstReservations(v: World, s: Step)
    requires s.DoReserve? || s.DoRenew? || s.DoCancel?
    ensures var after := Apply(v, s);
            && after.vault == v.vault && after.ledger == v.ledger.(reservations := after.ledger.reservations)
            && (v.ledger.index.None? ==> after.ledger == v.ledger)
  {
    hide BeatHeld, Occupied, Expire, LivePending, ValidId, Full;
  }

  lemma FirstChannel(v: World, s: Step)
    requires Invariant(v) && Allowed(v, s) && (s.Upload? || s.Lose? || s.Reap?)
    requires v.vault.pin == 0 || (ReadPinned(v.vault).Ok? && ReadPinned(v.vault).value.Some?)
    ensures var after := Apply(v, s);
            && after.vault.pin == v.vault.pin && after.ledger == v.ledger
               && ReadPinned(after.vault) == ReadPinned(v.vault)
            && forall assets :: AssetMessages(v.vault, assets) ==> AssetMessages(after.vault, assets)
  {
    hide IndexRows, LedgerOk, DocumentsNameAssets;
  }

  lemma {:induction false} FirstRun(w: World, steps: seq<Step>, p: Publication)
    requires First(w, p) && FirstInProgress(w, w, p) && AllowedRun(w, steps) && AllBetween(p, steps)
    ensures FirstInProgress(w, Run(w, steps), p)
  {
    if steps != [] {
      hide First, FirstInProgress, Apply, Allowed, Between;
      var before, s := steps[..|steps| - 1], steps[|steps| - 1];
      assert s in steps;
      FirstRun(w, before, p);
      FirstStep(w, Run(w, before), p, s);
    }
  }

  /** The first publication of a vault may be tried again after any number of attempts that died anywhere, with any
      steps but another publication in between. The next attempt succeeds if and only if no earlier one pinned the
      document or the document lists no tombstone at all; the document is then committed, and a pinned copy under its
      own id. */
  lemma {:induction false} FirstPublicationEventually(w: World, p: Publication, steps: seq<Step>, limit: Option<nat>,
                                                      later: Time)
    requires Invariant(w) && First(w, p) && w.vault.pin == 0 && AssetMessages(w.vault, Assets(p.manifest))
    requires AllowedRun(w, steps) && AllBetween(p, steps)
    ensures var v := Run(w, steps);
            var (after, r) := Publish(v, p.(limit := limit, now := later), NoFault);
            && (r.Ok? <==> v.vault.pin == 0 || p.manifest.deleted == [])
            && (r.Ok? ==> && after.ledger.beats == map[] && after.ledger.purges == map[]
                          && after.ledger.index == Some(IndexRef(if v.vault.pin == 0 then v.vault.next else v.vault.pin,
                                                                 p.manifest))
                          && ReadPinned(after.vault) == Ok(after.ledger.index))
  {
    hide Invariant, First, Publish, ReadPinned, Run, AllowedRun, AllBetween, AssetMessages, Assets;
    NotInitialized(w, p);
    FirstRun(w, steps, p);
    FirstAttempt(w, Run(w, steps), p, p.(limit := limit, now := later), NoFault);
  }

  lemma NotInitialized(w: World, p: Publication)
    requires First(w, p)
    ensures w.ledger.index.None?
  {
    hide IndexRows;
  }

  /** A publication that finds an INDEX but no ledger bootstraps first, in a transaction of its own: from there on it
      is a publication over that ledger. */
  lemma BootstrapComesFirst(w: World, p: Publication, fault: Fault)
    requires w.ledger.index.None? && ReadPinned(w.vault) != Ok(None) && IndexRows(p.manifest).Ok?
    ensures var (initialized, error) := Bootstrap(w, p.now);
            if error.Some? then Publish(w, p, fault) == (w, Err(error.value))
            else initialized.ledger.index.Some? && Publish(w, p, fault) == Publish(initialized, p, fault)
  {
    hide IndexRows, ReadPinned, PublishLocked, TombstoneError;
  }

  lemma NextIsPositive(w: World)
    requires Invariant(w)
    ensures 0 < w.vault.next
  {
    hide DocumentsNameAssets;
  }
}
