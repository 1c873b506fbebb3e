/** Emptying the Trash: after any number of interrupted attempts, one that completes purges every requested beat. */
module LibraryPurge {
  import opened Wrappers
  import opened LibraryIndex
  import opened LibraryQuota
  import opened LibraryPublication
  import opened LibrarySafety
  import opened LibraryRuns
  import opened LibraryAssets
  import TrashAssets

  // The document without the purged beats.

  lemma {:induction false} WithoutMembers(beats: seq<Beat>, ids: set<BeatId>)
    ensures forall b :: b in Without(beats, ids) <==> b in beats && b.id !in ids
  {
    if beats != [] {
      var before, beat := beats[..|beats| - 1], beats[|beats| - 1];
      assert beats == before + [beat];
      WithoutMembers(before, ids);
    }
  }

  lemma {:induction false} AddRowsPrefix(rows: Rows, before: seq<Beat>, beat: Beat, state: BeatState)
    requires AddRows(rows, before + [beat], state).Ok?
    ensures AddRows(rows, before, state).Ok?
  {
    hide ValidId;
    assert (before + [beat])[..|before + [beat]| - 1] == before;
  }

  lemma RowsMinus(rows: Rows, ids: set<BeatId>, id: BeatId, state: BeatState)
    ensures rows[id := state] - ids == if id in ids then rows - ids else (rows - ids)[id := state]
  {
    if id in ids {
      assert rows[id := state] - ids == rows - ids;
    } else {
      assert rows[id := state] - ids == (rows - ids)[id := state];
    }
  }

  lemma WithoutNext(before: seq<Beat>, beat: Beat, ids: set<BeatId>)
    ensures Without(before + [beat], ids) == Without(before, ids) + if beat.id in ids then [] else [beat]
  {
    assert (before + [beat])[..|before + [beat]| - 1] == before;
  }

  lemma {:induction false} AddRowsWithout(rows: Rows, beats: seq<Beat>, ids: set<BeatId>, state: BeatState)
    requires AddRows(rows, beats, state).Ok? && ids !! rows.Keys
    ensures AddRows(rows, Without(beats, ids), state) == Ok(AddRows(rows, beats, state).value - ids)
  {
    if beats == [] {
      assert rows - ids == rows;
    } else {
      hide ValidId, AddRows, Without;
      var before, beat := beats[..|beats| - 1], beats[|beats| - 1];
      assert beats == before + [beat];
      AddRowsPrefix(rows, before, beat, state);
      AddRowsNext(rows, before, beat, state);
      AddRowsWithout(rows, before, ids, state);
      WithoutNext(before, beat, ids);
      RowsMinus(AddRows(rows, before, state).value, ids, beat.id, state);
      if beat.id in ids {
        assert Without(before, ids) + [] == Without(before, ids);
      } else {
        AddRowsNext(rows, Without(before, ids), beat, state);
      }
    }
  }

  function Ids(ids: seq<BeatId>): set<BeatId> {
    set id | id in ids
  }

  lemma RowsOfPurged(m: Manifest, ids: seq<BeatId>, stamp: int)
    requires IndexRows(m).Ok? && forall id <- ids :: id in IndexRows(m).value && IndexRows(m).value[id] == Trash
    ensures IndexRows(PurgedManifest(m, ids, stamp)) == Ok(IndexRows(m).value - Ids(ids))
  {
    hide AddRows;
    var active := AddRows(map[], m.beats, Active).value;
    forall id <- ids ensures id !in active {
      AddRowsAt(map[], m.beats, Active, id);
      AddRowsAt(active, m.trash, Trash, id);
    }
    AddRowsWithout(active, m.trash, Ids(ids), Trash);
  }

  lemma BeatsOfPurged(m: Manifest, ids: seq<BeatId>, stamp: int)
    requires IndexRows(m).Ok? && IndexRows(PurgedManifest(m, ids, stamp)).Ok?
    ensures forall b <- AllBeats(PurgedManifest(m, ids, stamp)) :: b in AllBeats(m)
    ensures forall id :: id !in ids && BeatOf(m, id).Some? && BeatOf(m, id).value in m.trash ==>
                           BeatOf(PurgedManifest(m, ids, stamp), id) == BeatOf(m, id)
  {
    hide IndexRows, BeatOf, Without;
    var after := PurgedManifest(m, ids, stamp);
    WithoutMembers(m.trash, Ids(ids));
    forall id | id !in ids && BeatOf(m, id).Some? && BeatOf(m, id).value in m.trash
      ensures BeatOf(after, id) == BeatOf(m, id)
    {
      BeatOfSays(m, id);
      BeatOfSays(after, id);
      assert BeatOf(m, id).value in after.trash;
    }
  }

  lemma SharesLess(m: Manifest, ids: seq<BeatId>, stamp: int, id: BeatId, assets: set<MsgId>)
    requires forall b <- AllBeats(PurgedManifest(m, ids, stamp)) :: b in AllBeats(m)
    ensures Clashes(PurgedManifest(m, ids, stamp), id, assets) ==> Clashes(m, id, assets)
    ensures Assets(PurgedManifest(m, ids, stamp)) <= Assets(m)
  {
    hide Without;
  }

  // What can be purged.

  /** The beat was purged already, or lies in Trash with every file verifiable, while every other beat of the document
      is well-formed and shares none of its messages. */
  ghost predicate CanPurge(ledger: Ledger, sha: Manifest, id: BeatId) {
    && ValidId(id)
    && ((id in ledger.purges && ledger.purges[id].state == Confirmed)
        || (&& id in ById(sha.trash) && Verifiable(ById(sha.trash)[id])
            && forall b <- AllBeats(sha) :: b.id != id ==> WellFormed(b)
                                                           && Messages(b) !! Messages(ById(sha.trash)[id])))
  }

  ghost predicate AllPurgeable(ledger: Ledger, ids: seq<BeatId>) {
    ledger.index.Some? && forall id <- ids :: CanPurge(ledger, ledger.index.value.sha, id)
  }

  lemma NoClash(sha: Manifest, id: BeatId)
    requires id in ById(sha.trash) && Verifiable(ById(sha.trash)[id])
    ensures Messages(ById(sha.trash)[id]) != {}
    ensures !Clashes(sha, id, Messages(ById(sha.trash)[id])) <==>
            forall b <- AllBeats(sha) :: b.id != id ==> WellFormed(b) && Messages(b) !! Messages(ById(sha.trash)[id])
  {
    hide ById, Verifiable, WellFormed, Messages;
    VerifiableIsWellFormed(ById(sha.trash)[id]);
  }

  /** A beat's purge can be recorded exactly when the beat can be purged; rows recorded before stay as they are. */
  lemma RequestOneSucceeds(ledger: Ledger, doc: IndexRef, id: BeatId)
    requires IndexRows(doc.sha) == Ok(ledger.beats) && PurgesOk(ledger, doc.sha) && ValidId(id)
             && doc.id !in Assets(doc.sha)
    ensures RequestOne(ledger.purges, doc, id).Ok? <==> CanPurge(ledger, doc.sha, id)
    ensures RequestOne(ledger.purges, doc, id).Ok? ==>
              var purges := RequestOne(ledger.purges, doc, id).value;
              && id in purges && (purges[id].state == Pending || purges[id].state == Confirmed)
              && (forall q <- ledger.purges :: q in purges && purges[q] == ledger.purges[q])
              && (forall q <- purges :: q in ledger.purges || purges[q].state == Pending)
  {
    hide IndexRows, Clashes, BeatOf, ById, ValidId, Verifiable, WellFormed, Messages, AllBeats;
    if id in ById(doc.sha.trash) {
      TrashBeat(doc.sha, id);
      TrashAssetsAreAssets(doc.sha, id);
      if Verifiable(ById(doc.sha.trash)[id]) {
        NoClash(doc.sha, id);
      }
      if id in ledger.purges {
        assert IsPending(ledger, id) ==> PendingOk(ledger, doc.sha, id);
      }
    }
  }

  lemma TrashAssetsAreAssets(sha: Manifest, id: BeatId)
    requires id in ById(sha.trash)
    ensures Messages(ById(sha.trash)[id]) <= Assets(sha)
  {
    hide ById, Messages;
    ByIdSays(sha.trash);
    assert ById(sha.trash)[id] in AllBeats(sha);
  }

  ghost predicate Requested(purges: map<BeatId, Purge>, ids: seq<BeatId>) {
    forall id <- ids :: id in purges && (purges[id].state == Pending || purges[id].state == Confirmed)
  }

  lemma CanPurgeStays(before: Ledger, after: Ledger, sha: Manifest, id: BeatId)
    requires forall q <- before.purges :: q in after.purges && after.purges[q] == before.purges[q]
    requires forall q <- after.purges :: q in before.purges || after.purges[q].state == Pending
    ensures CanPurge(after, sha, id) <==> CanPurge(before, sha, id)
  {
    hide ById, ValidId, Verifiable, WellFormed, Messages, AllBeats;
  }

  /** All the requested purges are recorded exactly when every one of the beats can be purged. */
  lemma {:induction false} RequestAllSucceeds(ledger: Ledger, doc: IndexRef, ids: seq<BeatId>)
    requires IndexRows(doc.sha) == Ok(ledger.beats) && PurgesOk(ledger, doc.sha) && doc.id !in Assets(doc.sha)
    requires forall id <- ids :: ValidId(id)
    ensures RequestAll(ledger.purges, doc, ids).Ok? <==> forall id <- ids :: CanPurge(ledger, doc.sha, id)
    ensures RequestAll(ledger.purges, doc, ids).Ok? ==>
              var purges := RequestAll(ledger.purges, doc, ids).value;
              && Requested(purges, ids)
              && (forall q <- ledger.purges :: q in purges && purges[q] == ledger.purges[q])
              && (forall q <- purges :: q in ledger.purges || purges[q].state == Pending)
  {
    if ids != [] {
      hide PurgesOk, IndexRows, RequestOne, Assets, CanPurge, ValidId;
      var rest, id := ids[..|ids| - 1], ids[|ids| - 1];
      assert ids == rest + [id] && id in ids;
      RequestAllSucceeds(ledger, doc, rest);
      if RequestAll(ledger.purges, doc, rest).Ok? {
        RequestAllKeeps(ledger, ledger.purges, doc, rest);
        var some := ledger.(purges := RequestAll(ledger.purges, doc, rest).value);
        RequestOneSucceeds(some, doc, id);
        CanPurgeStays(ledger, some, doc.sha, id);
      }
    }
  }

  lemma {:induction false} StillPendingSays(ledger: Ledger, ids: seq<BeatId>)
    ensures forall id :: id in StillPending(ledger, ids) <==> id in ids && IsPending(ledger, id)
  {
    if ids != [] {
      hide IsPending;
      assert ids == ids[..|ids| - 1] + [ids[|ids| - 1]];
      StillPendingSays(ledger, ids[..|ids| - 1]);
    }
  }

  // The publication that purges.

  ghost predicate PurgeFits(ledger: Ledger, sha: Manifest, m: Manifest, ids: set<BeatId>) {
    && IndexRows(m) == Ok(ledger.beats - ids) && Assets(m) <= Assets(sha)
    && forall id <- ledger.purges | IsPending(ledger, id) ::
         && !Clashes(m, id, ledger.purges[id].assets)
         && (id !in ids ==> Untouched(sha, m, ledger.beats - ids, id))
  }

  lemma PurgedFits(ledger: Ledger, sha: Manifest, ids: seq<BeatId>, stamp: int)
    requires LedgerOk(ledger, sha) && forall id <- ids :: IsPending(ledger, id)
    ensures PurgeFits(ledger, sha, PurgedManifest(sha, ids, stamp), Ids(ids))
  {
    hide IndexRows, BeatOf, Clashes, Assets, PurgedManifest, DeletedIds;
    var m := PurgedManifest(sha, ids, stamp);
    assert forall id <- ids :: PendingOk(ledger, sha, id);
    RowsOfPurged(sha, ids, stamp);
    BeatsOfPurged(sha, ids, stamp);
    SharesLess(sha, ids, stamp, "", {});
    forall id <- ledger.purges | IsPending(ledger, id)
      ensures !Clashes(m, id, ledger.purges[id].assets)
      ensures id !in Ids(ids) ==> Untouched(sha, m, ledger.beats - Ids(ids), id)
    {
      assert PendingOk(ledger, sha, id);
      SharesLess(sha, ids, stamp, id, ledger.purges[id].assets);
      BeatOfSays(sha, id);
    }
  }

  lemma PurgeChecks(ledger: Ledger, sha: Manifest, m: Manifest, ids: set<BeatId>)
    requires LedgerOk(ledger, sha) && PurgeFits(ledger, sha, m, ids)
    requires forall id <- ids :: IsPending(ledger, id)
    requires DeletedIds(m) == DeletedIds(sha) + ids
    requires Removed(ledger, ledger.beats - ids) == ids && Fresh(ledger, ledger.beats - ids) == {}
    ensures CheckContents(ledger, sha, m, ledger.beats - ids, ids).None?
  {
    hide IndexRows, BeatOf, Clashes, Assets, Untouched, DeletedIds, Removed, Fresh;
    assert forall id <- ids :: PendingOk(ledger, sha, id);
  }

  lemma PurgePasses(ledger: Ledger, sha: Manifest, ids: seq<BeatId>, stamp: int)
    requires LedgerOk(ledger, sha) && ids != [] && forall id <- ids :: IsPending(ledger, id) && ValidId(id)
    ensures var m := PurgedManifest(sha, ids, stamp);
            && IndexRows(m) == Ok(ledger.beats - Ids(ids)) && m != sha && Assets(m) <= Assets(sha)
            && Removed(ledger, ledger.beats - Ids(ids)) == Ids(ids) && Fresh(ledger, ledger.beats - Ids(ids)) == {}
            && CheckContents(ledger, sha, m, ledger.beats - Ids(ids), Ids(ids)).None?
  {
    hide IndexRows, BeatOf, Assets, ValidId, PurgedManifest, CheckContents, Clashes, DeletedIds;
    var m, rows := PurgedManifest(sha, ids, stamp), ledger.beats - Ids(ids);
    PurgedFits(ledger, sha, ids, stamp);
    TombstonesOfPurged(sha, ids, stamp);
    assert forall id <- Ids(ids) :: PendingOk(ledger, sha, id);
    assert ids[0] in Ids(ids) && ids[0] in ledger.beats && ids[0] !in rows;
    assert Removed(ledger, rows) == Ids(ids);
    PurgeChecks(ledger, sha, m, Ids(ids));
  }

  lemma TombstonesOfPurged(sha: Manifest, ids: seq<BeatId>, stamp: int)
    requires forall id <- ids :: ValidId(id)
    ensures DeletedIds(PurgedManifest(sha, ids, stamp)) == DeletedIds(sha) + Ids(ids)
  {
    assert forall id <- ids :: id != "";
  }

  /** The last step of a purge, from a world whose pin and ledger agree. */
  lemma PurgePublishes(w: World, ids: seq<BeatId>, stamp: int, now: Time)
    requires Invariant(w) && w.ledger.index.Some? && ReadPinned(w.vault) == Ok(w.ledger.index)
    requires ids != [] && forall id <- ids :: IsPending(w.ledger, id) && ValidId(id)
    ensures var doc := w.ledger.index.value;
            var p := Publication(PurgedManifest(doc.sha, ids, stamp), doc.id, Ids(ids), None, now);
            var (after, r) := Publish(w, p, NoFault);
            && AssetMessages(w.vault, Assets(p.manifest))
            && r.Ok? && after.ledger.index.Some? && after.ledger.beats == w.ledger.beats - Ids(ids)
            && after.ledger.purges == ConfirmPurges(w.ledger.purges, Ids(ids))
            && PurgedAssets(w.ledger, Ids(ids)) !! after.vault.messages.Keys
  {
    hide IndexRows, LedgerOk, CheckContents, PurgedManifest, PurgedAssets, Assets, DocumentsNameAssets, ConfirmPurges,
         ValidId, AssetMessage, Removed, Fresh;
    var doc := w.ledger.index.value;
    PurgePasses(w.ledger, doc.sha, ids, stamp);
    DocumentAssets(w);
    assert forall a <- Assets(PurgedManifest(doc.sha, ids, stamp)) :: a in Assets(doc.sha);
    PurgedAssetsAreMessages(w, Ids(ids));
  }

  lemma DocumentAssets(w: World)
    requires Invariant(w) && w.ledger.index.Some?
    ensures AssetMessages(w.vault, Assets(w.ledger.index.value.sha))
    ensures w.ledger.index.value.id !in Assets(w.ledger.index.value.sha)
  {
    hide IndexRows, LedgerOk, Assets;
  }

  lemma PurgedAssetsAreMessages(w: World, ids: set<BeatId>)
    requires Invariant(w) && w.ledger.index.Some? && forall id <- ids :: IsPending(w.ledger, id)
    ensures w.vault.next !in PurgedAssets(w.ledger, ids)
  {
    hide IndexRows, AssetMessage, PurgedAssets;
    DocumentAssets(w);
    PurgedAssetsAreAssets(w.vault, w.ledger, w.ledger.index.value.sha, ids);
    NextIsNoAsset(w.vault, PurgedAssets(w.ledger, ids));
  }

  lemma NextIsNoAsset(vault: Vault, assets: set<MsgId>)
    requires AssetMessages(vault, assets)
    ensures vault.next !in assets
  {
    assert forall a <- assets :: AssetMessage(vault, a);
  }

  // One attempt.

  lemma {:induction false} DistinctSays(ids: seq<BeatId>)
    ensures forall id :: id in Distinct(ids) <==> id in ids
    ensures forall i, j | 0 <= i < j < |Distinct(ids)| :: Distinct(ids)[i] != Distinct(ids)[j]
  {
    if ids != [] {
      assert ids == ids[..|ids| - 1] + [ids[|ids| - 1]];
      DistinctSays(ids[..|ids| - 1]);
    }
  }

  lemma RecoverAligns(w: World)
    requires Invariant(w) && w.ledger.index.Some?
    ensures var (after, r) := Recover(w, NoFault);
            r.Ok? && after.ledger == w.ledger && ReadPinned(after.vault) == Ok(w.ledger.index) && Invariant(after)
    ensures AssetsGone(w) ==> AssetsGone(Recover(w, NoFault).0)
  {
    hide IndexRows, LedgerOk, DocumentsNameAssets;
    TombstonesStay(w.ledger, w.ledger.index.value.sha);
    RecoverKeeps(w, NoFault);
  }

  /** The request phase succeeds exactly when every beat can be purged. */
  lemma RequestSucceeds(w: World, ids: seq<BeatId>)
    requires Invariant(w) && w.ledger.index.Some? && ReadPinned(w.vault) == Ok(w.ledger.index) && forall id <- ids ::
               ValidId(id)
    ensures var (after, refused) := RequestPurge(w, ids);
            && (refused.None? <==> AllPurgeable(w.ledger, ids))
            && (refused.None? ==> && Invariant(after) && after.vault == w.vault
                                  && after.ledger == w.ledger.(purges := after.ledger.purges)
                                  && Requested(after.ledger.purges, ids) && AllPurgeable(after.ledger, ids)
                                  && (AssetsGone(w) ==> AssetsGone(after)))
  {
    hide IndexRows, PurgesOk, Assets, RequestAll, CanPurge, VaultOk, ValidId, Gone;
    DocumentAssets(w);
    RequestPurgeKeeps(w, ids);
    var doc := w.ledger.index.value;
    RequestAllSucceeds(w.ledger, doc, ids);
    if RequestAll(w.ledger.purges, doc, ids).Ok? {
      var after := RequestPurge(w, ids).0;
      forall id <- ids
        ensures CanPurge(after.ledger, doc.sha, id)
      {
        CanPurgeStays(w.ledger, after.ledger, doc.sha, id);
      }
    }
  }

  ghost predicate PurgedNow(w: World, ids: seq<BeatId>) {
    AllConfirmed(w.ledger, ids) && forall id <- ids :: id !in w.ledger.beats
  }

  lemma ConfirmedAreGone(w: World, ids: seq<BeatId>)
    requires Invariant(w) && AllConfirmed(w.ledger, ids)
    ensures PurgedNow(w, ids)
  {
    hide IndexRows, VaultOk, PendingOk, PinOk;
  }

  /** The publication phase of an attempt that completes confirms everything that was requested. */
  lemma PublishPurgeConfirms(w: World, ids: seq<BeatId>, stamp: int, now: Time)
    requires Invariant(w) && w.ledger.index.Some? && ReadPinned(w.vault) == Ok(w.ledger.index)
    requires Requested(w.ledger.purges, ids) && (forall id <- ids :: ValidId(id)) && StillPending(w.ledger, ids) != []
    ensures var (after, error) := PublishPurge(w, ids, StillPending(w.ledger, ids), stamp, now, PurgeCompletes);
            error.None? && PurgedNow(after, ids) && (AssetsGone(w) ==> AssetsGone(after))
  {
    hide IndexRows, VaultOk, Publish, PurgedManifest, ReadPinned, ValidId, StillPending, Invariant, Assets,
         AssetMessages, Gone;
    var remaining := StillPending(w.ledger, ids);
    StillPendingSays(w.ledger, ids);
    PurgePublishes(w, remaining, stamp, now);
    var doc := w.ledger.index.value;
    var p := Publication(PurgedManifest(doc.sha, remaining, stamp), doc.id, Ids(remaining), None, now);
    PublishKeeps(w, p, NoFault);
    var after := Publish(w, p, NoFault).0;
    assert AllConfirmed(after.ledger, ids);
    ConfirmedAreGone(after, ids);
    if AssetsGone(w) {
      ConfirmedMeansGone(w, DoPublish(p, NoFault));
      PublishIsAStep(w, p);
    }
  }

  lemma PublishIsAStep(w: World, p: Publication)
    ensures Apply(w, DoPublish(p, NoFault)) == Publish(w, p, NoFault).0
  {
    hide Publish;
  }

  /** From any reachable state, a purge that completes succeeds if and only if every beat can be purged. Then each is
      confirmed and gone from the library, and every asset of each is gone from the vault. */
  lemma {:induction false} PurgeConfirms(w: World, beatIds: seq<BeatId>, stamp: int, now: Time)
    requires Invariant(w)
    ensures var (after, error) := PurgeTrash(w, beatIds, stamp, now, PurgeCompletes);
            && (error.None? <==> beatIds != [] && AllPurgeable(w.ledger, beatIds))
            && (error.None? ==>
                  && PurgedNow(after, beatIds)
                  && (AssetsGone(w) ==> forall id <- beatIds :: Gone(after.vault, after.ledger.purges[id].assets)))
  {
    hide IndexRows, Invariant, Recover, RequestPurge, PublishPurge, ReadPinned, ValidId, StillPending, Gone, Distinct,
         CanPurge;
    var ids := Distinct(beatIds);
    DistinctSays(beatIds);
    SamePurgeable(w.ledger, beatIds, ids);
    if ids != [] && forall id <- ids :: ValidId(id) {
      if w.ledger.index.Some? {
        RecoverAligns(w);
        var recovered := Recover(w, NoFault).0;
        RequestSucceeds(recovered, ids);
        var requested := RequestPurge(recovered, ids).0;
        if AllPurgeable(recovered.ledger, ids) {
          StillPendingSays(requested.ledger, ids);
          if StillPending(requested.ledger, ids) == [] {
            ConfirmedAreGone(requested, ids);
          } else {
            PublishPurgeConfirms(requested, ids, stamp, now);
          }
        }
      } else {
        NothingToPurge(w, ids);
      }
    } else if AllPurgeable(w.ledger, ids) {
      PurgeableIsValid(w.ledger, ids);
    }
  }

  lemma SamePurgeable(ledger: Ledger, beatIds: seq<BeatId>, ids: seq<BeatId>)
    requires forall id :: id in ids <==> id in beatIds
    ensures AllPurgeable(ledger, beatIds) <==> AllPurgeable(ledger, ids)
    ensures beatIds == [] <==> ids == []
  {
    hide CanPurge;
    assert beatIds != [] ==> beatIds[0] in ids;
    assert ids != [] ==> ids[0] in beatIds;
  }

  lemma PurgeableIsValid(ledger: Ledger, ids: seq<BeatId>)
    requires AllPurgeable(ledger, ids)
    ensures forall id <- ids :: ValidId(id)
  {
    hide ValidId, ById, Verifiable, WellFormed, Messages, AllBeats;
    forall id <- ids ensures ValidId(id) {
      assert CanPurge(ledger, ledger.index.value.sha, id);
    }
  }

  lemma NothingToPurge(w: World, ids: seq<BeatId>)
    requires w.ledger.index.None?
    ensures Recover(w, NoFault) == (w, Ok(NotInitialized)) && RequestPurge(w, ids).1.Some?
  {
    hide ReadPinned, RequestAll;
  }

  // Interrupted attempts.

  lemma InterruptedPublishKeepsLedger(w: World, p: Publication, fault: Fault)
    requires w.ledger.index.Some? && !fault.NoFault?
    ensures Publish(w, p, fault).0.ledger == w.ledger
  {
    hide IndexRows, CheckBase, CheckContents, CheckQuota, PurgedAssets, Removed, Fresh, CommitTo, ReadPinned, Erase,
         Send;
  }

  /** What was requested stays purgeable: a pending purge keeps its beat in Trash, readable and unshared. */
  lemma RequestedIsPurgeable(w: World, ids: seq<BeatId>)
    requires Invariant(w) && w.ledger.index.Some? && Requested(w.ledger.purges, ids) && forall id <- ids :: ValidId(id)
    ensures AllPurgeable(w.ledger, ids)
  {
    hide IndexRows, VaultOk, PinOk, Holds, ValidId, ById, BeatOf, Verifiable, Clashes, WellFormed, Messages, AllBeats;
    var sha := w.ledger.index.value.sha;
    forall id <- ids
      ensures CanPurge(w.ledger, sha, id)
    {
      if IsPending(w.ledger, id) {
        assert PendingOk(w.ledger, sha, id);
        TrashOf(sha, id);
        NoClash(sha, id);
      }
    }
  }

  lemma TrashOf(sha: Manifest, id: BeatId)
    requires IndexRows(sha).Ok? && BeatOf(sha, id).Some? && id in IndexRows(sha).value
             && IndexRows(sha).value[id] == Trash
    ensures id in ById(sha.trash) && ById(sha.trash)[id] == BeatOf(sha, id).value
  {
    hide IndexRows, BeatOf, ById;
    BeatOfSays(sha, id);
    ByIdSays(sha.trash);
    assert ById(sha.trash)[id] in AllBeats(sha);
  }

  /** An attempt that dies anywhere leaves every beat that could be purged in a state in which it still can be. */
  lemma {:induction false} AttemptKeepsPurgeable(w: World, beatIds: seq<BeatId>, stamp: int, now: Time,
                                                 fault: PurgeFault)
    requires Invariant(w) && AllPurgeable(w.ledger, beatIds) && beatIds != []
    ensures var after := PurgeTrash(w, beatIds, stamp, now, fault).0;
            Invariant(after) && AllPurgeable(after.ledger, beatIds)
  {
    hide IndexRows, Invariant, Recover, RequestPurge, PublishPurge, ReadPinned, ValidId, StillPending, Distinct,
         CanPurge;
    var ids := Distinct(beatIds);
    DistinctSays(beatIds);
    SamePurgeable(w.ledger, beatIds, ids);
    PurgeableIsValid(w.ledger, ids);
    var cut := if fault.CutRecovering? then CutAfterPin else NoFault;
    RecoverKeepsLedger(w, cut);
    var (recovered, r) := Recover(w, cut);
    if r.Ok? {
      RequestSucceeds(recovered, ids);
      var requested := RequestPurge(recovered, ids).0;
      SamePurgeable(requested.ledger, beatIds, ids);
      if !fault.CutAfterRequest? && StillPending(requested.ledger, ids) != [] {
        PublishPurgeKeeps(requested, ids, stamp, now, fault);
        SamePurgeable(PublishPurge(requested, ids, StillPending(requested.ledger, ids), stamp, now, fault).0.ledger,
                      beatIds, ids);
      }
    }
    SamePurgeable(recovered.ledger, beatIds, ids);
  }

  lemma PublishPurgeKeeps(w: World, ids: seq<BeatId>, stamp: int, now: Time, fault: PurgeFault)
    requires Invariant(w) && w.ledger.index.Some? && ReadPinned(w.vault) == Ok(w.ledger.index)
             && AllPurgeable(w.ledger, ids)
    requires Requested(w.ledger.purges, ids) && (forall id <- ids :: ValidId(id)) && StillPending(w.ledger, ids) != []
    ensures var after := PublishPurge(w, ids, StillPending(w.ledger, ids), stamp, now, fault).0;
            Invariant(after) && AllPurgeable(after.ledger, ids)
  {
    hide IndexRows, Invariant, Publish, PurgedManifest, ReadPinned, ValidId, StillPending, AssetMessages, Assets,
         CanPurge;
    var remaining := StillPending(w.ledger, ids);
    StillPendingSays(w.ledger, ids);
    var doc := w.ledger.index.value;
    var p := Publication(PurgedManifest(doc.sha, remaining, stamp), doc.id, Ids(remaining), None, now);
    var cut := if fault.CutPublishing? then fault.fault else NoFault;
    PurgePublishes(w, remaining, stamp, now);
    PublishKeeps(w, p, cut);
    var after := Publish(w, p, cut).0;
    if cut.NoFault? {
      RequestedIsPurgeable(after, ids);
    } else {
      InterruptedPublishKeepsLedger(w, p, cut);
    }
  }

  lemma CutPublicationFails(w: World, p: Publication, fault: Fault)
    requires w.ledger.index.Some? && p.manifest != w.ledger.index.value.sha && !fault.NoFault?
    ensures Publish(w, p, fault).1.Err?
  {
    hide IndexRows, CheckBase, CheckContents, CheckQuota, PurgedAssets, Removed, Fresh, CommitTo, ReadPinned, Erase,
         Send;
  }

  /** Success is never reported in vain: wherever an attempt stopped, if it reports none but success, every beat was one
      that can be purged, and each is confirmed and gone from the library. */
  lemma {:induction false} SuccessMeansPurged(w: World, beatIds: seq<BeatId>, stamp: int, now: Time,
                                              fault: PurgeFault)
    requires Invariant(w)
    ensures var (after, error) := PurgeTrash(w, beatIds, stamp, now, fault);
            error.None? ==> beatIds != [] && AllPurgeable(w.ledger, beatIds) && PurgedNow(after, beatIds)
  {
    hide IndexRows, Invariant, Recover, RequestPurge, PublishPurge, ReadPinned, ValidId, StillPending, Distinct,
         CanPurge;
    var ids := Distinct(beatIds);
    DistinctSays(beatIds);
    SamePurgeable(w.ledger, beatIds, ids);
    var cut := if fault.CutRecovering? then CutAfterPin else NoFault;
    if PurgeTrash(w, beatIds, stamp, now, fault).1.None? {
      if w.ledger.index.Some? {
        RecoverKeepsLedger(w, cut);
        var recovered := Recover(w, cut).0;
        RequestSucceeds(recovered, ids);
        var requested := RequestPurge(recovered, ids).0;
        StillPendingSays(requested.ledger, ids);
        if StillPending(requested.ledger, ids) == [] {
          ConfirmedAreGone(requested, ids);
        } else {
          PublishedMeansPurged(requested, ids, stamp, now, fault);
        }
      } else {
        NothingRequested(w, ids, cut);
      }
    }
  }

  lemma NothingRequested(w: World, ids: seq<BeatId>, cut: Fault)
    requires w.ledger.index.None?
    ensures RequestPurge(Recover(w, cut).0, ids).1.Some?
  {
    hide IndexRows;
  }

  lemma PublishedMeansPurged(w: World, ids: seq<BeatId>, stamp: int, now: Time, fault: PurgeFault)
    requires Invariant(w) && w.ledger.index.Some? && ReadPinned(w.vault) == Ok(w.ledger.index)
    requires Requested(w.ledger.purges, ids) && (forall id <- ids :: ValidId(id)) && StillPending(w.ledger, ids) != []
    ensures var (after, error) := PublishPurge(w, ids, StillPending(w.ledger, ids), stamp, now, fault);
            error.None? ==> PurgedNow(after, ids)
  {
    hide IndexRows, Invariant, Publish, PurgedManifest, ReadPinned, ValidId, StillPending, AssetMessages, Assets;
    var remaining := StillPending(w.ledger, ids);
    var cut := if fault.CutPublishing? then fault.fault else NoFault;
    if cut.NoFault? {
      PublishPurgeConfirms(w, ids, stamp, now);
    } else {
      var doc := w.ledger.index.value;
      StillPendingSays(w.ledger, ids);
      PurgedDiffers(doc.sha, remaining, stamp);
      CutPublicationFails(w, Publication(PurgedManifest(doc.sha, remaining, stamp), doc.id, Ids(remaining), None, now),
                          cut);
      InterruptedPublishKeepsLedger(w, Publication(PurgedManifest(doc.sha, remaining, stamp), doc.id, Ids(remaining),
                                                   None, now), cut);
      assert remaining[0] in ids && IsPending(w.ledger, remaining[0]);
    }
  }

  lemma PurgedDiffers(sha: Manifest, ids: seq<BeatId>, stamp: int)
    requires ids != []
    ensures PurgedManifest(sha, ids, stamp) != sha
  {
    assert |sha.deleted + ids| > |sha.deleted|;
  }

  datatype Attempt = Attempt(stamp: int, now: Time, fault: PurgeFault)

  function AfterAttempts(w: World, ids: seq<BeatId>, attempts: seq<Attempt>): World {
    if attempts == [] then w
    else
      var last := attempts[|attempts| - 1];
      PurgeTrash(AfterAttempts(w, ids, attempts[..|attempts| - 1]), ids, last.stamp, last.now, last.fault).0
  }

  lemma {:induction false} AttemptsKeepPurgeable(w: World, ids: seq<BeatId>, attempts: seq<Attempt>)
    requires Invariant(w) && AllPurgeable(w.ledger, ids) && ids != []
    ensures var s := AfterAttempts(w, ids, attempts); Invariant(s) && AllPurgeable(s.ledger, ids)
  {
    if attempts != [] {
      hide Invariant, PurgeTrash, CanPurge;
      var last := attempts[|attempts| - 1];
      AttemptsKeepPurgeable(w, ids, attempts[..|attempts| - 1]);
      AttemptKeepsPurgeable(AfterAttempts(w, ids, attempts[..|attempts| - 1]), ids, last.stamp, last.now, last.fault);
    }
  }

  /** However many attempts died, and wherever, the first one that completes confirms every beat. */
  lemma {:induction false} PurgeIsRetryable(w: World, ids: seq<BeatId>, attempts: seq<Attempt>, stamp: int, now: Time)
    requires Invariant(w) && AllPurgeable(w.ledger, ids) && ids != []
    ensures var (after, error) := PurgeTrash(AfterAttempts(w, ids, attempts), ids, stamp, now, PurgeCompletes);
            error.None? && PurgedNow(after, ids)
  {
    hide Invariant, PurgeTrash, CanPurge;
    AttemptsKeepPurgeable(w, ids, attempts);
    PurgeConfirms(AfterAttempts(w, ids, attempts), ids, stamp, now);
  }

  /** Once the rows are recorded, nothing else any process does stands in the way: after every run of publications,
      recoveries, requests, reservations and losses, each dying anywhere, a purge that completes confirms every beat. */
  lemma {:induction false} RequestedPurgeSucceeds(w: World, ids: seq<BeatId>, steps: seq<Step>, stamp: int, now: Time)
    requires Invariant(w) && w.ledger.index.Some? && Requested(w.ledger.purges, ids) && ids != []
    requires (forall id <- ids :: ValidId(id)) && AllowedRun(w, steps)
    ensures var (after, error) := PurgeTrash(Run(w, steps), ids, stamp, now, PurgeCompletes);
            error.None? && PurgedNow(after, ids)
  {
    hide Invariant, PurgeTrash, ValidId, Run, AllowedRun;
    RunKeeps(w, steps);
    RunAdvances(w, steps);
    RunStaysInitialized(w, steps);
    RequestedIsPurgeable(Run(w, steps), ids);
    PurgeConfirms(Run(w, steps), ids, stamp, now);
  }

  lemma {:induction false} RunStaysInitialized(w: World, steps: seq<Step>)
    requires Invariant(w) && w.ledger.index.Some? && AllowedRun(w, steps)
    ensures Run(w, steps).ledger.index.Some?
  {
    if steps != [] {
      hide Invariant, Apply, Allowed;
      var before := steps[..|steps| - 1];
      RunStaysInitialized(w, before);
      RunKeeps(w, before);
      StepReplaces(Run(w, before), steps[|steps| - 1]);
    }
  }

  // Malformed records.

  /** While any purge is pending, every beat the committed document lists can be read for its messages. */
  lemma PendingMeansWellFormed(w: World, id: BeatId)
    requires Invariant(w) && w.ledger.index.Some? && IsPending(w.ledger, id)
    ensures forall b <- AllBeats(w.ledger.index.value.sha) :: WellFormed(b)
  {
    hide IndexRows, VaultOk, PinOk, Holds, BeatOf, Verifiable, WellFormed, Messages, AllBeats;
    var sha := w.ledger.index.value.sha;
    assert PendingOk(w.ledger, sha, id);
    BeatOfSays(sha, id);
    VerifiableIsWellFormed(BeatOf(sha, id).value);
  }

  /** A live beat whose artwork has a locator of some other form. */
  const UNREADABLE := Beat("b", TrashAssets.Beat(
    None, [TrashAssets.Object(TrashAssets.NoId, TrashAssets.NoId, TrashAssets.BadLocator, [])], []), "")

  lemma UnreadableSays()
    ensures !WellFormed(UNREADABLE)
  {
    var whole := TrashAssets.Whole(UNREADABLE.record);
    assert TrashAssets.Children(whole) == UNREADABLE.record.sections;
    assert TrashAssets.MessageIds(whole.items[0]).None?;
    assert TrashAssets.MessageIdsOf(whole, 1).None?;
  }

  /** Beside such a beat nothing in Trash can be purged, however often it is tried. */
  lemma {:induction false} UnreadableBeatBlocksPurges(w: World, doc: IndexRef, stamp: int, now: Time)
    requires Invariant(w) && w.ledger.index == Some(doc) && doc.sha == Manifest([UNREADABLE], [OneFile("a", 5)], [], 0)
    ensures !AllPurgeable(w.ledger, ["a"]) && PurgeTrash(w, ["a"], stamp, now, PurgeCompletes).1.Some?
  {
    hide Invariant, PurgeTrash, WellFormed, Messages, Verifiable, ById, ValidId;
    UnreadableSays();
    assert UNREADABLE in AllBeats(doc.sha) && "a" in ["a"];
    OneFileIsListed(w, doc);
    PurgeConfirms(w, ["a"], stamp, now);
  }

  lemma OneFileIsListed(w: World, doc: IndexRef)
    requires Invariant(w) && w.ledger.index == Some(doc) && doc.sha == Manifest([UNREADABLE], [OneFile("a", 5)], [], 0)
    ensures "a" in w.ledger.purges ==> w.ledger.purges["a"].state != Confirmed
  {
    hide VaultOk, PinOk, Holds, IndexRows, PendingOk;
    assert OneFile("a", 5) in doc.sha.trash && Lists(AllBeats(doc.sha), "a");
    IndexRowsSay(doc.sha);
  }
}
