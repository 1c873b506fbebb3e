/** What every reachable state of the library satisfies, wherever its processes die. */
module LibrarySafety {
  import opened Wrappers
  import opened LibraryIndex
  import opened LibraryQuota
  import opened LibraryPublication

  datatype Step =
    | DoBootstrap(now: Time)
    | DoPublish(p: Publication, fault: Fault)
    | DoRecover(fault: Fault)
    | DoRequestPurge(ids: seq<BeatId>)
    | DoReserve(beat: BeatId, rid: string, retryDenied: bool, limit: Option<nat>, now: Time)
    | DoRenew(rid: string, now: Time)
    | DoCancel(rid: string, now: Time)
    | Upload                 // anybody sends a message that is not an INDEX
    | Lose(id: MsgId)        // anybody deletes a message
    | ForeignPin(id: MsgId)  // anybody pins a message, or (0) unpins
    | Reap(gone: set<MsgId>)  // deletions requested after earlier commits arrive

  predicate IsOther(vault: Vault, id: MsgId) {
    id in vault.messages && vault.messages[id].Other?
  }

  function Apply(w: World, s: Step): World {
    match s
    case DoBootstrap(now) => Bootstrap(w, now).0
    case DoPublish(p, fault) => Publish(w, p, fault).0
    case DoRecover(fault) => Recover(w, fault).0
    case DoRequestPurge(ids) => RequestPurge(w, ids).0
    case DoReserve(beat, rid, retryDenied, limit, now) => w.(ledger := Reserve(w.ledger, beat, rid, retryDenied, limit,
                                                                               now).0)
    case DoRenew(rid, now) => w.(ledger := Renew(w.ledger, rid, now).0)
    case DoCancel(rid, now) => w.(ledger := Cancel(w.ledger, rid, now).0)
    case Upload => w.(vault := Send(w.vault, Other))
    case Lose(id) => w.(vault := Erase(w.vault, {id}))
    case ForeignPin(id) => w.(vault := w.vault.(pin := id))
    case Reap(gone) => w.(vault := Erase(w.vault, gone * w.doomed), doomed := w.doomed - gone)
  }

  // Environment: the assets of a beat are messages that exist or existed, and none of them is an INDEX; only this
  // service pins an INDEX, and nobody else deletes one.

  predicate AssetMessage(vault: Vault, a: MsgId) {
    0 < a < vault.next && (a in vault.messages ==> vault.messages[a].Other?)
  }

  predicate AssetMessages(vault: Vault, assets: set<MsgId>) {
    forall a <- assets :: AssetMessage(vault, a)
  }

  ghost predicate Allowed(w: World, s: Step) {
    match s
    case DoPublish(p, _) => AssetMessages(w.vault, Assets(p.manifest))
    case Lose(id) => id !in w.vault.messages || IsOther(w.vault, id)
    case ForeignPin(id) => id == 0 || IsOther(w.vault, id)
    case _ => true
  }

  // The invariant.

  ghost predicate IdsBelow(vault: Vault) {
    0 < vault.next && forall id <- vault.messages :: 0 < id < vault.next
  }

  ghost predicate DocumentsNameAssets(vault: Vault) {
    forall id <- vault.messages :: vault.messages[id].Index? ==>
             AssetMessages(vault, Assets(vault.messages[id].manifest))
  }

  ghost predicate VaultOk(vault: Vault) {
    IdsBelow(vault) && DocumentsNameAssets(vault) && (vault.pin == 0 || vault.pin in vault.messages)
  }

  /** What is pinned is no INDEX, or one that is whole, not older than the committed one and not about to be deleted. */
  ghost predicate PinOk(w: World, committed: MsgId) {
    w.vault.pin in w.vault.messages && !w.vault.messages[w.vault.pin].Other? ==>
      && w.vault.messages[w.vault.pin].Index? && IndexRows(w.vault.messages[w.vault.pin].manifest).Ok?
      && committed <= w.vault.pin && w.vault.pin !in w.doomed
  }

  /** A pending purge: its beat is in Trash as it was when the purge was requested, it shares none of its assets, and
      every other beat can be read for them. */
  ghost predicate PendingOk(ledger: Ledger, sha: Manifest, id: BeatId) {
    && id in ledger.purges && id in ledger.beats && ledger.beats[id] == Trash
    && BeatOf(sha, id).Some? && Verifiable(BeatOf(sha, id).value) && ledger.purges[id].beat == BeatOf(sha, id)
    && ledger.purges[id].assets == Messages(BeatOf(sha, id).value) != {}
    && !Clashes(sha, id, ledger.purges[id].assets)
  }

  ghost predicate PurgesOk(ledger: Ledger, sha: Manifest) {
    forall id <- ledger.purges :: if IsPending(ledger, id) then PendingOk(ledger, sha, id) else id !in ledger.beats
  }

  ghost predicate LedgerOk(ledger: Ledger, sha: Manifest) {
    && IndexRows(sha) == Ok(ledger.beats)
    && DeletedIds(sha) <= ledger.purges.Keys && DeletedIds(sha) !! ledger.beats.Keys
    && PurgesOk(ledger, sha)
  }

  ghost predicate Invariant(w: World) {
    && VaultOk(w.vault)
    && (forall id <- w.doomed :: id < w.vault.next)
    && (w.ledger.pointer.Some? ==> w.ledger.pointer.value.predecessor < w.vault.next)
    && if w.ledger.index.None? then w.ledger.beats == map[] && w.ledger.purges == map[] && w.doomed == {}
       else
         var doc := w.ledger.index.value;
         Holds(w.vault, doc) && doc.id !in w.doomed && PinOk(w, doc.id) && LedgerOk(w.ledger, doc.sha)
  }

  // Telegram effects.

  lemma SendKeepsVault(vault: Vault, message: Message)
    requires VaultOk(vault) && (message.Index? ==> AssetMessages(vault, Assets(message.manifest)))
    ensures VaultOk(Send(vault, message))
    ensures forall assets :: AssetMessages(vault, assets) ==> AssetMessages(Send(vault, message), assets)
  {
    hide Assets;
  }

  lemma EraseKeepsVault(vault: Vault, ids: set<MsgId>)
    requires VaultOk(vault)
    ensures VaultOk(Erase(vault, ids))
    ensures forall assets :: AssetMessages(vault, assets) ==> AssetMessages(Erase(vault, ids), assets)
  {
    hide Assets;
  }

  lemma PinKeepsVault(vault: Vault, id: MsgId)
    requires VaultOk(vault) && (id == 0 || id in vault.messages)
    ensures VaultOk(vault.(pin := id))
  {
    hide Assets;
  }

  lemma PurgedAssetsAreAssets(vault: Vault, ledger: Ledger, sha: Manifest, ids: set<BeatId>)
    requires IndexRows(sha).Ok? && AssetMessages(vault, Assets(sha)) && PurgesOk(ledger, sha)
    requires forall id <- ids :: IsPending(ledger, id)
    ensures AssetMessages(vault, PurgedAssets(ledger, ids))
  {
    hide IndexRows, Clashes, BeatOf, AssetMessage;
    forall id, a | id in ids && a in ledger.purges[id].assets
      ensures AssetMessage(vault, a)
    {
      BeatOfSays(sha, id);
      assert PendingOk(ledger, sha, id);
      assert a in Assets(sha);
    }
  }

  // The ledger.

  lemma CommitKeepsLedger(ledger: Ledger, previous: Manifest, id: MsgId, m: Manifest, rows: Rows, expected: MsgId,
                          purgeIds: set<BeatId>)
    requires IndexRows(m) == Ok(rows) && CheckContents(ledger, previous, m, rows, purgeIds).None?
    requires if ledger.index.Some? then LedgerOk(ledger, previous) else previous == NO_MANIFEST
                                                                        && ledger.purges == map[]
    ensures LedgerOk(CommitTo(ledger, id, m, rows, expected), m)
  {
    hide IndexRows, Clashes, BeatOf, CommitReservations;
    var after := CommitTo(ledger, id, m, rows, expected);
    assert forall q <- rows :: !Purged(ledger, previous, q);
    forall q <- after.purges
      ensures if IsPending(after, q) then PendingOk(after, m, q) else q !in after.beats
    {
      if IsPending(after, q) {
        assert IsPending(ledger, q) && q !in purgeIds;
        assert Untouched(previous, m, rows, q) && PendingOk(ledger, previous, q);
      }
    }
    assert DeletedIds(m) <= after.purges.Keys by {
      assert forall q <- Removed(ledger, rows) :: MayLeave(ledger, previous, m, q);
    }
  }

  lemma {:induction false} RequestAllKeeps(ledger: Ledger, purges: map<BeatId, Purge>, doc: IndexRef, ids: seq<BeatId>)
    requires IndexRows(doc.sha) == Ok(ledger.beats) && ledger.purges == purges && PurgesOk(ledger, doc.sha)
    requires RequestAll(purges, doc, ids).Ok?
    ensures PurgesOk(ledger.(purges := RequestAll(purges, doc, ids).value), doc.sha)
    ensures purges.Keys <= RequestAll(purges, doc, ids).value.Keys
  {
    if ids != [] {
      hide PurgesOk, IndexRows, RequestOne;
      var before := RequestAll(purges, doc, ids[..|ids| - 1]).value;
      RequestAllKeeps(ledger, purges, doc, ids[..|ids| - 1]);
      RequestOneKeeps(ledger.(purges := before), doc, ids[|ids| - 1]);
    }
  }

  lemma TrashBeat(m: Manifest, id: BeatId)
    requires IndexRows(m).Ok? && id in ById(m.trash)
    ensures id in IndexRows(m).value && IndexRows(m).value[id] == Trash && BeatOf(m, id) == Some(ById(m.trash)[id])
  {
    hide IndexRows, ById;
    ByIdSays(m.trash);
    var beat := ById(m.trash)[id];
    assert beat in AllBeats(m) && Lists(m.trash, id);
    IndexRowsSay(m);
    BeatOfSays(m, id);
  }

  lemma RequestOneKeeps(ledger: Ledger, doc: IndexRef, id: BeatId)
    requires IndexRows(doc.sha) == Ok(ledger.beats) && PurgesOk(ledger, doc.sha)
             && RequestOne(ledger.purges, doc, id).Ok?
    ensures var purges := RequestOne(ledger.purges, doc, id).value;
            ledger.purges.Keys <= purges.Keys && PurgesOk(ledger.(purges := purges), doc.sha)
  {
    hide IndexRows, Clashes, BeatOf, ById, Verifiable, Messages;
    if id in ById(doc.sha.trash) {
      TrashBeat(doc.sha, id);
      VerifiableIsWellFormed(ById(doc.sha.trash)[id]);
    }
    var after := ledger.(purges := RequestOne(ledger.purges, doc, id).value);
    forall q <- after.purges
      ensures if IsPending(after, q) then PendingOk(after, doc.sha, q) else q !in after.beats
    {
      if q in ledger.purges {
        assert IsPending(after, q) == IsPending(ledger, q);
      }
    }
  }

  // Each operation keeps the invariant.

  lemma BootstrapKeeps(w: World, now: Time)
    requires Invariant(w)
    ensures Invariant(Bootstrap(w, now).0)
  {
    hide IndexRows, Clashes, BeatOf, AssetMessages, TombstoneError;
    var current := ReadPinned(w.vault);
    if current.Ok? && current.value.Some? {
      var sha := current.value.value.sha;
      NoTombstoneError(sha.deleted, IndexRows(sha).value);
    }
  }

  lemma RecoverKeeps(w: World, fault: Fault)
    requires Invariant(w)
    ensures Invariant(Recover(w, fault).0)
  {
    hide IndexRows, LedgerOk, DocumentsNameAssets;
    if w.ledger.index.Some? {
      var doc := w.ledger.index.value;
      TombstonesStay(w.ledger, doc.sha);
      PinKeepsVault(w.vault, doc.id);
    }
  }

  /** Every tombstone of the committed document already has a row. */
  lemma TombstonesStay(ledger: Ledger, sha: Manifest)
    requires LedgerOk(ledger, sha)
    ensures WithTombstones(ledger.purges, DeletedIds(sha)) == ledger.purges
    ensures IndexRows(sha).Ok? && DeletedIds(sha) * IndexRows(sha).value.Keys == {}
  {
    hide IndexRows, PurgesOk;
  }

  lemma RequestPurgeKeeps(w: World, ids: seq<BeatId>)
    requires Invariant(w)
    ensures Invariant(RequestPurge(w, ids).0)
  {
    hide IndexRows, PurgesOk, AssetMessages, RequestAll;
    if RequestPurge(w, ids).1.None? {
      RequestAllKeeps(w.ledger, w.ledger.purges, w.ledger.index.value, ids);
    }
  }

  ghost function Before(ledger: Ledger): Manifest {
    if ledger.index.Some? then ledger.index.value.sha else NO_MANIFEST
  }

  /** What a publication deletes are assets, never a document. */
  lemma DeletesAssetsOnly(w: World, p: Publication, rows: Rows)
    requires Invariant(w) && CheckContents(w.ledger, Before(w.ledger), p.manifest, rows, p.purgeIds).None?
    ensures AssetMessages(w.vault, PurgedAssets(w.ledger, Removed(w.ledger, rows)))
  {
    hide IndexRows, AssetMessages, Assets, Clashes, BeatOf;
    if w.ledger.index.Some? {
      assert forall id <- Removed(w.ledger, rows) :: MayLeave(w.ledger, Before(w.ledger), p.manifest, id);
      PurgedAssetsAreAssets(w.vault, w.ledger, Before(w.ledger), Removed(w.ledger, rows));
    } else {
      assert Removed(w.ledger, rows) == {};
      assert PurgedAssets(w.ledger, {}) == {};
      NoAssets(w.vault);
    }
  }

  lemma NoAssets(vault: Vault)
    ensures AssetMessages(vault, {})
  {
  }

  lemma EraseKeeps(w: World, ids: set<MsgId>)
    requires Invariant(w) && AssetMessages(w.vault, ids)
    ensures Invariant(w.(vault := Erase(w.vault, ids)))
    ensures forall doc :: Holds(w.vault, doc) ==> Holds(Erase(w.vault, ids), doc)
  {
    hide IndexRows, LedgerOk, DocumentsNameAssets;
    EraseKeepsVault(w.vault, ids);
  }

  lemma SendKeeps(w: World, m: Manifest)
    requires Invariant(w) && AssetMessages(w.vault, Assets(m)) && IndexRows(m).Ok?
    ensures var sent := Send(w.vault, Index(m));
            && Invariant(w.(vault := sent)) && Invariant(w.(vault := sent.(pin := w.vault.next)))
            && Holds(sent, IndexRef(w.vault.next, m)) && w.vault.next !in w.doomed
            && (w.ledger.index.Some? ==> w.ledger.index.value.id < w.vault.next)
  {
    hide IndexRows, LedgerOk, AssetMessages, Assets;
    SendKeepsVault(w.vault, Index(m));
    PinKeepsVault(Send(w.vault, Index(m)), w.vault.next);
  }

  lemma CommitKeeps(w: World, id: MsgId, p: Publication, rows: Rows)
    requires Invariant(w) && IndexRows(p.manifest) == Ok(rows)
    requires w.vault.pin == id && Holds(w.vault, IndexRef(id, p.manifest)) && id !in w.doomed
    requires p.expected == if w.ledger.index.Some? then w.ledger.index.value.id else 0
    requires CheckContents(w.ledger, Before(w.ledger), p.manifest, rows, p.purgeIds).None?
    ensures Invariant(World(CommitTo(w.ledger, id, p.manifest, rows, p.expected), w.vault,
                            w.doomed + ({p.expected} - {0, id})))
  {
    hide IndexRows, LedgerOk, CheckContents;
    CommitKeepsLedger(w.ledger, Before(w.ledger), id, p.manifest, rows, p.expected, p.purgeIds);
  }

  lemma ExecuteKeeps(w: World, current: Option<IndexRef>, p: Publication, rows: Rows, fault: Fault)
    requires Invariant(w) && AssetMessages(w.vault, Assets(p.manifest)) && IndexRows(p.manifest) == Ok(rows)
    requires ReadPinned(w.vault) == Ok(current) && CheckBase(w, current, p, rows).None?
    requires CheckContents(w.ledger, Before(w.ledger), p.manifest, rows, p.purgeIds).None?
    ensures Invariant(Execute(w, current, p, rows, fault).0)
  {
    hide IndexRows, AssetMessages, VaultOk, LedgerOk, CommitTo, PurgedAssets, Assets, CheckContents, Send, Removed;
    DeletesAssetsOnly(w, p, rows);
    var assets := PurgedAssets(w.ledger, Removed(w.ledger, rows));
    EraseKeeps(w, assets);
    if fault.CutErasing? {
      SomeAssets(w.vault, assets, fault.erased);
      EraseKeeps(w, assets * fault.erased);
    } else {
      EraseKeepsVault(w.vault, assets);
      var erased := w.(vault := Erase(w.vault, assets));
      if Adopts(current, p) {
        PinnedSurvives(w, assets, current.value);
        CommitKeeps(erased, current.value.id, p, rows);
      } else {
        SendKeeps(erased, p.manifest);
        var sent := Send(erased.vault, Index(p.manifest));
        CommitKeeps(erased.(vault := sent.(pin := erased.vault.next)), erased.vault.next, p, rows);
      }
    }
  }

  lemma SomeAssets(vault: Vault, assets: set<MsgId>, some: set<MsgId>)
    requires AssetMessages(vault, assets)
    ensures AssetMessages(vault, assets * some)
  {
    hide AssetMessage;
  }

  lemma PinnedSurvives(w: World, ids: set<MsgId>, doc: IndexRef)
    requires AssetMessages(w.vault, ids) && ReadPinned(w.vault) == Ok(Some(doc))
    ensures Erase(w.vault, ids).pin == doc.id && Holds(Erase(w.vault, ids), doc)
  {
    hide IndexRows;
  }

  lemma PublishLockedKeeps(w: World, p: Publication, rows: Rows, fault: Fault)
    requires Invariant(w) && AssetMessages(w.vault, Assets(p.manifest)) && IndexRows(p.manifest) == Ok(rows)
    ensures Invariant(PublishLocked(w, p, rows, fault).0)
  {
    hide IndexRows, AssetMessages, VaultOk, LedgerOk, CommitTo, PurgedAssets, Assets, CheckContents, CheckBase,
         CheckQuota, Execute;
    var read := ReadPinned(w.vault);
    if read.Ok? && CheckBase(w, read.value, p, rows).None?
       && CheckContents(w.ledger, Before(w.ledger), p.manifest, rows, p.purgeIds).None? {
      ExecuteKeeps(w, read.value, p, rows, fault);
    }
  }

  lemma {:induction false} PublishKeeps(w: World, p: Publication, fault: Fault)
    requires Invariant(w) && AssetMessages(w.vault, Assets(p.manifest))
    ensures Invariant(Publish(w, p, fault).0)
  {
    hide IndexRows, AssetMessages, Invariant, Assets, ReadPinned, PublishLocked, Bootstrap;
    BootstrapKeeps(w, p.now);
    BootstrapKeepsVault(w, p.now);
    if IndexRows(p.manifest).Ok? {
      var rows := IndexRows(p.manifest).value;
      PublishLockedKeeps(w, p, rows, fault);
      PublishLockedKeeps(Bootstrap(w, p.now).0, p, rows, fault);
    }
  }

  lemma BootstrapKeepsVault(w: World, now: Time)
    ensures Bootstrap(w, now).0.vault == w.vault
  {
    hide ReadPinned, IndexRows;
  }

  lemma ReservationsKeep(w: World, ledger: Ledger)
    requires Invariant(w) && ledger == w.ledger.(reservations := ledger.reservations)
    ensures Invariant(w.(ledger := ledger))
  {
    hide IndexRows, Clashes, BeatOf, VaultOk;
    if w.ledger.index.Some? {
      var sha := w.ledger.index.value.sha;
      forall id <- ledger.purges
        ensures if IsPending(ledger, id) then PendingOk(ledger, sha, id) else id !in ledger.beats
      {
        assert IsPending(w.ledger, id) == IsPending(ledger, id);
      }
    }
  }

  lemma OthersKeep(w: World, s: Step)
    requires Invariant(w) && Allowed(w, s) && (s.Upload? || s.Lose? || s.ForeignPin? || s.Reap?)
    ensures Invariant(Apply(w, s))
  {
    hide IndexRows, LedgerOk, AssetMessages;
    if s.Upload? {
      SendKeepsVault(w.vault, Other);
    } else if s.Lose? {
      EraseKeepsVault(w.vault, {s.id});
    } else if s.Reap? {
      EraseKeepsVault(w.vault, s.gone * w.doomed);
    } else if s.ForeignPin? {
      PinKeepsVault(w.vault, s.id);
    }
  }

  lemma {:induction false} StepKeeps(w: World, s: Step)
    requires Invariant(w) && Allowed(w, s)
    ensures Invariant(Apply(w, s))
  {
    hide Invariant, AssetMessages, Assets, Publish, Recover, Bootstrap, RequestPurge, BeatHeld, Occupied, Expire,
         LivePending;
    match s
    case DoBootstrap(now) => BootstrapKeeps(w, now);
    case DoPublish(p, fault) => PublishKeeps(w, p, fault);
    case DoRecover(fault) => RecoverKeeps(w, fault);
    case DoRequestPurge(ids) => RequestPurgeKeeps(w, ids);
    case DoReserve(_, _, _, _, _) => ReservationsKeep(w, Apply(w, s).ledger);
    case DoRenew(_, _) => ReservationsKeep(w, Apply(w, s).ledger);
    case DoCancel(_, _) => ReservationsKeep(w, Apply(w, s).ledger);
    case _ => OthersKeep(w, s);
  }
}
