/** The library service over its mutable tables and the vault, one method per operation.
    Each method is proved to reach exactly the world its specification function names, also when it dies midway. */
module LibraryService {
  import opened Wrappers
  import opened LibraryIndex
  import opened LibraryQuota
  import opened LibraryPublication
  import opened LibrarySafety

  // Loops over a set finish it one element at a time.

  lemma CommitOneMore(reservations: Reservations, done: set<BeatId>, id: BeatId)
    ensures var rid, some := ReservationId(id), CommitReservations(reservations, done);
            CommitReservations(reservations, done + {id}) == if rid in some
            then some[rid := some[rid].(state := Committed)] else some
  {
    SameReservationId();
  }

  lemma SameReservationId()
    ensures forall a, b :: ReservationId(a) == ReservationId(b) ==> a == b
  {
    forall a, b | ReservationId(a) == ReservationId(b) ensures a == b {
      assert ReservationId(a)[4..] == a && ReservationId(b)[4..] == b;
    }
  }

  lemma CommitNone(reservations: Reservations)
    ensures CommitReservations(reservations, {}) == reservations
  {
  }

  lemma ConfirmNone(purges: map<BeatId, Purge>)
    ensures ConfirmPurges(purges, {}) == purges
  {
  }

  lemma ConfirmOneMore(purges: map<BeatId, Purge>, done: set<BeatId>, id: BeatId)
    ensures var some := ConfirmPurges(purges, done);
            ConfirmPurges(purges, done + {id}) == if id in some then some[id := some[id].(state := Confirmed)] else some
  {
  }

  lemma EraseMore(vault: Vault, a: set<MsgId>, b: set<MsgId>)
    ensures Erase(Erase(vault, a), b) == Erase(vault, a + b)
  {
  }

  class Library {
    var index: Option<IndexRef>
    var beats: Rows
    var purges: map<BeatId, Purge>
    var reservations: Reservations
    var pointer: Option<Pointer>
    var bootstrapPending: bool
    var messages: map<MsgId, Message>
    var pin: MsgId
    var next: MsgId
    var doomed: set<MsgId>

    constructor (vault: Vault)
      ensures Tables() == Ledger(None, map[], map[], map[], None, true) && Channel() == vault && doomed == {}
    {
      index, beats, purges, reservations, pointer, bootstrapPending := None, map[], map[], map[], None, true;
      messages, pin, next, doomed := vault.messages, vault.pin, vault.next, {};
    }

    function Tables(): Ledger
      reads this
    {
      Ledger(index, beats, purges, reservations, pointer, bootstrapPending)
    }

    function Channel(): Vault
      reads this
    {
      Vault(messages, pin, next)
    }

    function State(): World
      reads this
    {
      World(Tables(), Channel(), doomed)
    }

    method Pinned() returns (r: Result<Option<IndexRef>, Error>)
      ensures r == ReadPinned(Channel())
    {
      hide IndexRows;
      if pin == 0 {
        return Ok(None);
      }
      if pin !in messages || messages[pin].Other? {
        return Err(IndexUnverified);
      }
      if messages[pin].Broken? {
        return Err(IndexInvalid);
      }
      var rows := BuildRows(messages[pin].manifest);
      return if rows.Err? then Err(rows.error) else Ok(Some(IndexRef(pin, messages[pin].manifest)));
    }

    method DeleteMessages(ids: set<MsgId>)
      modifies `messages, `pin
      ensures Channel() == Erase(old(Channel()), ids)
    {
      messages := messages - ids;
      if pin in ids {
        pin := 0;
      }
    }

    method SendDocument(m: Manifest) returns (id: MsgId)
      modifies `messages, `next
      ensures Channel() == Send(old(Channel()), Index(m)) && id == old(next)
    {
      id := next;
      messages := messages[id := Index(m)];
      next := next + 1;
    }

    method InsertTombstones(ids: set<BeatId>)
      modifies `purges
      ensures purges == WithTombstones(old(purges), ids)
    {
      hide WithTombstones;
      ghost var before := purges;
      var todo := ids;
      NoTombstones(before, ids);
      while todo != {}
        invariant todo <= ids && purges == WithTombstones(before, ids - todo)
        decreases |todo|
      {
        var id :| id in todo;
        TombstoneOneMore(before, ids - todo, id);
        OneLess(ids, todo, id);
        if id !in purges {
          purges := purges[id := Purge(LegacyTombstone, {}, None)];
        }
        todo := todo - {id};
      }
    }

    method BootstrapQuota(now: Time) returns (error: Option<Error>)
      modifies this
      ensures (State(), error) == Bootstrap(old(State()), now)
    {
      hide IndexRows, ReadPinned, WithTombstones, Expire, ValidId, DeletedIds;
      var current := Pinned();
      if current.Err? {
        return Some(current.error);
      }
      if current.value.None? {
        return Some(IndexUnverified);
      }
      var doc := current.value.value;
      if index.Some? {
        if index.value != doc {
          return Some(IndexChanged);
        }
        reservations := Expire(reservations, now);
        return None;
      }
      PinnedRows(Channel());
      var rows := BuildRows(doc.sha);
      for i := 0 to |doc.sha.deleted|
        invariant TombstoneError(doc.sha.deleted[i..], rows.value) == TombstoneError(doc.sha.deleted, rows.value)
      {
        assert doc.sha.deleted[i..][1..] == doc.sha.deleted[i + 1..];
        if !ValidId(doc.sha.deleted[i]) {
          return Some(InvalidInput);
        }
        if doc.sha.deleted[i] in rows.value {
          return Some(IndexInvalid);
        }
      }
      index := Some(doc);
      beats := rows.value;
      InsertTombstones(DeletedIds(doc.sha));
      return None;
    }

    method RecoverIndex(fault: Fault) returns (r: Result<Recovery, Error>)
      modifies this
      ensures (State(), r) == Recover(old(State()), fault)
    {
      hide IndexRows, ReadPinned, WithTombstones, DeletedIds;
      if index.None? {
        return Ok(NotInitialized);
      }
      var doc, saved := index.value, purges;
      var read := Pinned();
      if read.Err? && read.error !in {IndexUnverified, IndexInvalid} {
        return Err(read.error);
      }
      var current := if read.Ok? then read.value else None;
      if current != Some(doc) && !Holds(Channel(), doc) {
        return Err(IndexChanged);
      }
      var rows := BuildRows(doc.sha);
      if rows.Err? {
        return Err(rows.error);
      }
      if DeletedIds(doc.sha) * rows.value.Keys != {} {
        return Err(IndexInvalid);
      }
      InsertTombstones(DeletedIds(doc.sha));
      if current == Some(doc) {
        return Ok(AlreadyCurrent);
      }
      pin := doc.id;
      if !fault.NoFault? {
        purges := saved;
        return Err(Interrupted);
      }
      var orphan := if current.Some? then current.value.id else 0;
      if orphan != 0 && orphan != doc.id {
        doomed := doomed + {orphan};
        assert {orphan} - {0} == {orphan};
      } else {
        assert {0} - {0} == {} && doomed + {} == doomed;
      }
      return Ok(Restored);
    }

    /** Deletes the assets of every removed beat; dying there, only some of them. */
    method DeleteAssets(removed: set<BeatId>, fault: Fault)
      modifies `messages, `pin
      ensures Channel() == Erase(old(Channel()), AssetsToErase(Tables(), removed, fault))
    {
      hide Erase, AssetsToErase;
      var todo := removed;
      ghost var ledger, before := Tables(), Channel();
      EraseNothing(before);
      AssetsNone(ledger, fault);
      assert removed - todo == {};
      while todo != {}
        invariant todo <= removed && Tables() == ledger
        invariant Channel() == Erase(before, AssetsToErase(ledger, removed - todo, fault))
        decreases |todo|
      {
        var id :| id in todo;
        ghost var done := removed - todo;
        var assets := if id !in purges then {} else if fault.CutErasing? then purges[id].assets * fault.erased
                      else purges[id].assets;
        AssetsOneMore(ledger, done, id, fault, assets);
        EraseMore(before, AssetsToErase(ledger, done, fault), assets);
        DeleteMessages(assets);
        OneLess(removed, todo, id);
        todo := todo - {id};
      }
      assert removed - todo == removed;
    }

    method InsertRows(rows: Rows)
      modifies `beats, `reservations
      ensures beats == old(beats) + rows
      ensures reservations == CommitReservations(old(reservations), rows.Keys - old(beats).Keys)
    {
      hide CommitFresh, Merged, ReservationId, CommitReservations;
      ghost var before, held := beats, reservations;
      var known, all := beats.Keys, rows.Keys;
      var todo := all;
      NothingMerged(before, held, rows);
      while todo != {}
        invariant todo <= all && beats == Merged(before, rows, all - todo)
        invariant reservations == CommitFresh(held, known, all - todo)
        decreases |todo|
      {
        var id :| id in todo;
        MergeOneMore(before, held, rows, all - todo, id);
        OneLess(all, todo, id);
        beats := beats[id := rows[id]];
        if id !in known && ReservationId(id) in reservations {
          reservations := reservations[ReservationId(id) := reservations[ReservationId(id)].(state := Committed)];
        }
        todo := todo - {id};
      }
    }

    method RemoveRows(removed: set<BeatId>)
      modifies `beats, `purges
      ensures beats == old(beats) - removed && purges == ConfirmPurges(old(purges), removed)
    {
      hide ConfirmPurges;
      ghost var before, requested := beats, purges;
      var todo := removed;
      ConfirmNone(requested);
      assert removed - todo == {};
      while todo != {}
        invariant todo <= removed
        invariant beats == before - (removed - todo) && purges == ConfirmPurges(requested, removed - todo)
        decreases |todo|
      {
        var id :| id in todo;
        ghost var done := removed - todo;
        ConfirmOneMore(requested, done, id);
        todo := todo - {id};
        assert removed - todo == done + {id};
        beats := beats - {id};
        if id in purges {
          purges := purges[id := purges[id].(state := Confirmed)];
        }
      }
      assert removed - todo == removed;
    }

    method PublishIndex(p: Publication, fault: Fault) returns (r: Result<Published, Error>)
      modifies this
      ensures (State(), r) == Publish(old(State()), p, fault)
    {
      hide IndexRows, ReadPinned, PublishLocked, Bootstrap;
      var rows := BuildRows(p.manifest);
      if rows.Err? {
        return Err(rows.error);
      }
      if index.None? {
        var found := Pinned();
        if found != Ok(None) {
          var error := BootstrapQuota(p.now);
          if error.Some? {
            return Err(error.value);
          }
        }
      }
      r := PublishUnderLock(p, rows.value, fault);
    }

    // The checks of a publication, each a loop over the rows it is about.

    /** The document has to carry on every tombstone, and may add one only for a beat that is purged here. */
    static method CheckTombstones(tombstones: set<BeatId>, prior: set<BeatId>, purgeIds: set<BeatId>) returns (ok: bool)
      ensures ok <==> prior <= tombstones <= prior + purgeIds
    {
      var todo := prior;
      while todo != {}
        invariant todo <= prior && prior - todo <= tombstones
        decreases |todo|
      {
        var id :| id in todo;
        if id !in tombstones {
          return false;
        }
        todo := todo - {id};
      }
      todo := tombstones;
      while todo != {}
        invariant todo <= tombstones && tombstones - todo <= prior + purgeIds && prior <= tombstones
        decreases |todo|
      {
        var id :| id in todo;
        if id !in prior && id !in purgeIds {
          return false;
        }
        todo := todo - {id};
      }
      return true;
    }

    method CheckNoneReturns(rows: Rows, previous: Manifest) returns (ok: bool)
      ensures ok <==> forall id <- rows :: !Purged(Tables(), previous, id)
    {
      hide Purged, DeletedIds;
      var todo := rows.Keys;
      while todo != {}
        invariant todo <= rows.Keys && forall id <- rows.Keys - todo :: !Purged(Tables(), previous, id)
        decreases |todo|
      {
        var id :| id in todo;
        if Purged(Tables(), previous, id) {
          return false;
        }
        todo := todo - {id};
      }
      return true;
    }

    method CheckPendingUntouched(previous: Manifest, m: Manifest, rows: Rows, purgeIds: set<BeatId>) returns (ok: bool)
      ensures ok <==> forall id <- purges :: IsPending(Tables(), id) && id !in purgeIds ==>
                Untouched(previous, m, rows, id)
    {
      hide Untouched;
      var todo := purges.Keys;
      while todo != {}
        invariant todo <= purges.Keys
        invariant forall id <- purges.Keys - todo ::
                    IsPending(Tables(), id) && id !in purgeIds ==> Untouched(previous, m, rows, id)
        decreases |todo|
      {
        var id :| id in todo;
        if purges[id].state == Pending && id !in purgeIds && !Untouched(previous, m, rows, id) {
          return false;
        }
        todo := todo - {id};
      }
      return true;
    }

    /** Reads every other beat for its messages; the first malformed or sharing one ends the search. */
    static method FindClash(m: Manifest, id: BeatId, assets: set<MsgId>) returns (found: bool)
      ensures found <==> Clashes(m, id, assets)
    {
      hide WellFormed, Messages;
      if assets == {} {
        return false;
      }
      var all := AllBeats(m);
      for i := 0 to |all|
        invariant forall b <- all[..i] :: b.id == id || (WellFormed(b) && Messages(b) * assets == {})
      {
        if all[i].id != id && (!WellFormed(all[i]) || Messages(all[i]) * assets != {}) {
          return true;
        }
      }
      return false;
    }

    method CheckPendingUnshared(m: Manifest) returns (ok: bool)
      ensures ok <==> forall id <- purges :: IsPending(Tables(), id) ==> !Clashes(m, id, purges[id].assets)
    {
      hide Clashes;
      var todo := purges.Keys;
      while todo != {}
        invariant todo <= purges.Keys
        invariant forall id <- purges.Keys - todo :: IsPending(Tables(), id) ==> !Clashes(m, id, purges[id].assets)
        decreases |todo|
      {
        var id :| id in todo;
        if purges[id].state == Pending {
          var found := FindClash(m, id, purges[id].assets);
          if found {
            return false;
          }
        }
        todo := todo - {id};
      }
      return true;
    }

    method CheckLeaving(previous: Manifest, m: Manifest, rows: Rows) returns (ok: bool)
      ensures ok <==> forall id <- Removed(Tables(), rows) :: MayLeave(Tables(), previous, m, id)
    {
      hide MayLeave;
      var todo := beats.Keys;
      while todo != {}
        invariant todo <= beats.Keys
        invariant forall id <- beats.Keys - todo :: id !in rows ==> MayLeave(Tables(), previous, m, id)
        decreases |todo|
      {
        var id :| id in todo;
        if id !in rows && !MayLeave(Tables(), previous, m, id) {
          return false;
        }
        todo := todo - {id};
      }
      return true;
    }

    method CheckFresh(rows: Rows, prior: set<BeatId>) returns (ok: bool)
      ensures ok <==> forall id <- Fresh(Tables(), rows) :: id !in purges && id !in prior
    {
      var todo := rows.Keys;
      while todo != {}
        invariant todo <= rows.Keys
        invariant forall id <- rows.Keys - todo :: id !in beats ==> id !in purges && id !in prior
        decreases |todo|
      {
        var id :| id in todo;
        if id !in beats && (id in purges || id in prior) {
          return false;
        }
        todo := todo - {id};
      }
      return true;
    }

    method CheckDocument(previous: Manifest, m: Manifest, rows: Rows,
                         purgeIds: set<BeatId>) returns (error: Option<Error>)
      ensures error == CheckContents(Tables(), previous, m, rows, purgeIds)
    {
      hide DeletedIds, Purged, Untouched, Clashes, MayLeave;
      if beats.Keys - rows.Keys != purgeIds {
        return Some(PurgeRequired);
      }
      var prior := DeletedIds(previous);
      var ok := CheckTombstones(DeletedIds(m), prior, purgeIds);
      if !ok {
        return Some(PurgeTombstone);
      }
      ok := CheckNoneReturns(rows, previous);
      if !ok {
        return Some(PurgeTombstone);
      }
      ok := CheckPendingUntouched(previous, m, rows, purgeIds);
      if !ok {
        return Some(PurgePending);
      }
      ok := CheckPendingUnshared(m);
      if !ok {
        return Some(AssetsUnverified);
      }
      ok := CheckLeaving(previous, m, rows);
      if !ok {
        return Some(IndexInvalid);
      }
      ok := CheckFresh(rows, prior);
      return if ok then None else Some(PurgeTombstone);
    }

    method CheckPlaces(rows: Rows, limit: Option<nat>, now: Time) returns (error: Option<Error>)
      ensures error == CheckQuota(Tables(), rows, limit, now)
      ensures error.None? <==> RoomFor(Tables(), rows, limit, now)
    {
      hide HasReservation, LivePending, RoomFor, Taken;
      QuotaExactly(Tables(), rows, limit, now);
      var added := rows.Keys - beats.Keys;
      if added == {} {
        return None;
      }
      if limit.Some? {
        var pending := |LivePending(reservations, now)|;
        if |beats| >= limit.value || |beats| + |added| > limit.value || |beats| + pending > limit.value {
          return Some(Exceeded);
        }
      }
      var todo := added;
      while todo != {}
        invariant todo <= added && forall id <- added - todo :: HasReservation(Tables(), id, now)
        decreases |todo|
      {
        var id :| id in todo;
        if !HasReservation(Tables(), id, now) {
          return Some(ReservationNotFound);
        }
        todo := todo - {id};
      }
      return None;
    }

    /** The caller's base must be the committed document, and what is pinned that document or a copy of the new one. */
    method CheckExpected(current: Option<IndexRef>, p: Publication, rows: Rows) returns (error: Option<Error>)
      requires ReadPinned(Channel()) == Ok(current)
      ensures error == CheckBase(State(), current, p, rows)
    {
      hide IndexRows;
      var currentId := if current.Some? then current.value.id else 0;
      if index.Some? {
        if index.value.id != p.expected {
          return Some(IndexChanged);
        }
        if currentId != p.expected && !(current.Some? && current.value.sha == p.manifest) {
          return Some(IndexChanged);
        }
        if currentId == p.expected && current != index {
          return Some(IndexChanged);
        }
        return if currentId != p.expected && !Holds(Channel(), index.value) then Some(IndexChanged) else None;
      }
      return if p.expected != 0 || currentId != 0 || rows != map[] then Some(Uninitialized) else None;
    }

    /** The transaction of a publication. Whatever it replies and wherever it dies, the two stores keep their
        invariant; when it replies with success, the ledger names the document, it is pinned, and none of the purged
        beats is left. */
    method PublishUnderLock(p: Publication, rows: Rows, fault: Fault) returns (r: Result<Published, Error>)
      modifies this
      ensures (State(), r) == PublishLocked(old(State()), p, rows, fault)
      ensures old(Invariant(State()) && AssetMessages(Channel(), Assets(p.manifest)))
              && IndexRows(p.manifest) == Ok(rows) ==>
                && Invariant(State())
                && (r.Ok? ==> && index == Some(IndexRef(r.value.id, p.manifest)) && ReadPinned(Channel()) == Ok(index)
                              && beats == rows && (!r.value.same ==> forall id <- p.purgeIds :: id !in beats))
    {
      hide IndexRows, ReadPinned, CheckBase, CheckContents, CheckQuota, Execute, Invariant, AssetMessages, Assets;
      if IndexRows(p.manifest) == Ok(rows) {
        PublicationKept(old(State()), p, rows, fault);
      }
      var read := Pinned();
      if read.Err? {
        return Err(read.error);
      }
      var current := read.value;
      var currentId := if current.Some? then current.value.id else 0;
      if index.None? && !bootstrapPending {
        return Err(Uninitialized);
      }
      if index.None? && pointer.Some? {
        return Err(IndexChanged);
      }
      if index.Some? && index.value.sha == p.manifest && index.value.id == currentId {
        var prior := if pointer.Some? then pointer.value.predecessor else 0;
        doomed := doomed + ({prior} - {0, currentId});
        return Ok(Published(currentId, prior, true));
      }
      var error := CheckExpected(current, p, rows);
      if error.Some? {
        return Err(error.value);
      }
      var previous := if index.Some? then index.value.sha else NO_MANIFEST;
      error := CheckDocument(previous, p.manifest, rows, p.purgeIds);
      if error.Some? {
        return Err(error.value);
      }
      error := CheckPlaces(rows, p.limit, p.now);
      if error.Some? {
        return Err(error.value);
      }
      r := ExecutePublication(current, p, rows, fault);
    }

    method CommitRows(id: MsgId, m: Manifest, rows: Rows, expected: MsgId)
      modifies `index, `beats, `purges, `reservations, `pointer, `bootstrapPending
      ensures Tables() == CommitTo(old(Tables()), id, m, rows, expected)
    {
      hide CommitReservations, ConfirmPurges;
      var removed := beats.Keys - rows.Keys;
      RowsReplaced(beats, rows);
      InsertRows(rows);
      RemoveRows(removed);
      index := Some(IndexRef(id, m));
      pointer := Some(Pointer(id, expected, if pointer.Some? then pointer.value.revision + 1 else 1));
      bootstrapPending := false;
    }

    method ExecutePublication(current: Option<IndexRef>, p: Publication, rows: Rows,
                              fault: Fault) returns (r: Result<Published, Error>)
      modifies this
      ensures (State(), r) == Execute(old(State()), current, p, rows, fault)
    {
      hide PurgedAssets, CommitTo, Erase, Send;
      DeleteAssets(beats.Keys - rows.Keys, fault);
      if fault.CutErasing? {
        return Err(Interrupted);
      }
      var published: MsgId;
      if Adopts(current, p) {
        published := current.value.id;
        if !fault.NoFault? {
          return Err(Interrupted);
        }
      } else {
        published := SendDocument(p.manifest);
        if fault.CutAfterSend? {
          return Err(Interrupted);
        }
        pin := published;
        if fault.CutAfterPin? {
          return Err(Interrupted);
        }
      }
      CommitRows(published, p.manifest, rows, p.expected);
      doomed := doomed + ({p.expected} - {0, published});
      return Ok(Published(published, p.expected, false));
    }

    /** The row of one purge, unless the beat cannot be purged. */
    method RequestRow(doc: IndexRef, id: BeatId) returns (error: Option<Error>)
      modifies `purges
      ensures var r := RequestOne(old(purges), doc, id);
              purges == (if r.Ok? then r.value else old(purges)) && error == (if r.Err? then Some(r.error) else None)
    {
      hide ById, Verifiable, Messages, Clashes;
      if id in purges && purges[id].state == Confirmed {
        return None;
      }
      var trash := ById(doc.sha.trash);
      if id !in trash {
        return Some(InvalidInput);
      }
      var beat := trash[id];
      if !Verifiable(beat) || doc.id in Messages(beat) {
        return Some(AssetsUnverified);
      }
      var clash := FindClash(doc.sha, id, Messages(beat));
      if clash {
        return Some(AssetsUnverified);
      }
      if id in purges {
        return if purges[id].beat == Some(beat) && purges[id].assets == Messages(beat) then None
               else Some(PurgePending);
      }
      purges := purges[id := Purge(Pending, Messages(beat), Some(beat))];
      return None;
    }

    method RequestPurgeRows(ids: seq<BeatId>) returns (error: Option<Error>)
      modifies this
      ensures (State(), error) == RequestPurge(old(State()), ids)
    {
      hide ReadPinned, RequestOne;
      var current := Pinned();
      if current.Err? {
        return Some(current.error);
      }
      if index.None? || current.value != index {
        return Some(IndexChanged);
      }
      ghost var before := purges;
      var doc, saved, i := index.value, purges, 0;
      while i < |ids|
        invariant 0 <= i <= |ids| && RequestAll(before, doc, ids[..i]) == Ok(purges)
        invariant State() == old(State()).(ledger := old(Tables()).(purges := purges))
      {
        assert ids[..i + 1][..i] == ids[..i];
        error := RequestRow(doc, ids[i]);
        i := i + 1;
        if error.Some? {
          FirstRefusalStays(before, doc, ids, i);
          purges := saved;
          return;
        }
      }
      assert ids[..i] == ids;
      return None;
    }

    /** The Set of the requested ids, in their order. */
    static method Deduplicate(beatIds: seq<BeatId>) returns (ids: seq<BeatId>)
      ensures ids == Distinct(beatIds)
    {
      ids := [];
      for i := 0 to |beatIds|
        invariant ids == Distinct(beatIds[..i])
      {
        assert beatIds[..i + 1][..i] == beatIds[..i];
        if beatIds[i] !in ids {
          ids := ids + [beatIds[i]];
        }
      }
      assert beatIds[..|beatIds|] == beatIds;
    }

    method SelectPending(ids: seq<BeatId>) returns (remaining: seq<BeatId>)
      ensures remaining == StillPending(Tables(), ids)
    {
      remaining := [];
      for i := 0 to |ids|
        invariant remaining == StillPending(Tables(), ids[..i])
      {
        assert ids[..i + 1][..i] == ids[..i];
        if IsPending(Tables(), ids[i]) {
          remaining := remaining + [ids[i]];
        }
      }
      assert ids[..|ids|] == ids;
    }

    method EmptyTrash(beatIds: seq<BeatId>, stamp: int, now: Time, fault: PurgeFault) returns (error: Option<Error>)
      modifies this
      ensures (State(), error) == PurgeTrash(old(State()), beatIds, stamp, now, fault)
    {
      hide Recover, RequestPurge, Publish, StillPending, PurgedManifest, ValidId, Distinct;
      var ids := Deduplicate(beatIds);
      if ids == [] || exists id <- ids :: !ValidId(id) {
        return Some(InvalidInput);
      }
      var recovered := RecoverIndex(if fault.CutRecovering? then CutAfterPin else NoFault);
      if recovered.Err? {
        return Some(recovered.error);
      }
      error := RequestPurgeRows(ids);
      if error.Some? {
        return;
      }
      if fault.CutAfterRequest? {
        return Some(Interrupted);
      }
      var remaining := SelectPending(ids);
      if remaining == [] {
        return None;
      }
      CommittedAfterRequest(old(State()), ids, fault);
      var doc := index.value;
      var p := Publication(PurgedManifest(doc.sha, remaining, stamp), doc.id, (set id | id in remaining), None, now);
      var outcome := PublishIndex(p, if fault.CutPublishing? then fault.fault else NoFault);
      return if outcome.Err? && !AllConfirmed(Tables(), ids) then Some(outcome.error) else None;
    }

    // Reservations.

    method ReservePlace(beat: BeatId, rid: string, retryDenied: bool, limit: Option<nat>, now: Time)
      returns (r: Result<ReservationState, Error>)
      modifies `reservations
      ensures (Tables(), r) == Reserve(old(Tables()), beat, rid, retryDenied, limit, now)
    {
      hide Expire, LivePending, ValidId;
      if !ValidId(beat) || !ValidId(rid) {
        return Err(InvalidInput);
      }
      if index.None? {
        return Err(Uninitialized);
      }
      if beat in purges {
        return Err(PurgeTombstone);
      }
      var saved := reservations;
      reservations := Expire(reservations, now);
      if rid in reservations {
        var existing := reservations[rid];
        if existing.beat != beat {
          reservations := saved;
          return Err(IdentityConflict);
        }
        if existing.state == Denied && !retryDenied {
          return Err(Exceeded);
        }
        if existing.state == Reserved || existing.state == Committed {
          return Ok(existing.state);
        }
      }
      if beat in beats {
        reservations := saved;
        return Err(BeatExists);
      }
      if BeatHeld(reservations, beat) {
        reservations := saved;
        return Err(BeatReserved);
      }
      if Full(|beats| + |LivePending(reservations, now)|, limit) {
        reservations := reservations[rid := Reservation(beat, Denied, now)];
        return Err(Exceeded);
      }
      reservations := reservations[rid := Reservation(beat, Reserved, now + RESERVATION_TTL_MS)];
      return Ok(Reserved);
    }

    method RenewPlace(rid: string, now: Time) returns (r: Result<ReservationState, Error>)
      modifies `reservations
      ensures (Tables(), r) == Renew(old(Tables()), rid, now)
      ensures r.Ok? <==> ValidId(rid) && index.Some? && rid in old(reservations) && Live(old(reservations)[rid], now)
      ensures r.Ok? ==> rid in reservations && reservations[rid].expiresAt == now + RESERVATION_TTL_MS
      ensures LivePending(reservations, now) == LivePending(old(reservations), now)
      ensures r.Err? ==> reservations == old(reservations)
    {
      hide Expire, ValidId, LivePending;
      ExpireHidesNothing(reservations, now);
      RenewKeepsPlaces(old(Tables()), rid, now);
      if !ValidId(rid) {
        return Err(InvalidInput);
      }
      if index.None? {
        return Err(Uninitialized);
      }
      var after := Expire(reservations, now);
      if rid !in after || after[rid].state != Reserved {
        return Err(ReservationClosed);
      }
      reservations := after[rid := after[rid].(expiresAt := now + RESERVATION_TTL_MS)];
      return Ok(Reserved);
    }

    method CancelPlace(rid: string, now: Time) returns (r: Result<ReservationState, Error>)
      modifies `reservations
      ensures (Tables(), r) == Cancel(old(Tables()), rid, now)
      ensures r.Ok? <==> ValidId(rid) && index.Some? && rid in old(reservations)
                         && old(reservations)[rid].state != Committed
      ensures r.Ok? ==> rid !in LivePending(reservations, now)
      ensures LivePending(reservations, now)
           == if r.Ok? then LivePending(old(reservations), now) - {rid} else LivePending(old(reservations), now)
    {
      hide Expire, ValidId, LivePending;
      CancelKeepsOthers(old(Tables()), rid, now);
      if !ValidId(rid) {
        return Err(InvalidInput);
      }
      if index.None? {
        return Err(Uninitialized);
      }
      var after := Expire(reservations, now);
      if rid !in after {
        return Err(ReservationNotFound);
      }
      var row := after[rid];
      if row.state == Committed {
        return Err(ReservationClosed);
      }
      if row.state == Reserved {
        row := row.(state := Canceled);
        after := after[rid := row];
      }
      reservations := after;
      return Ok(row.state);
    }
  }

  lemma RenewKeepsPlaces(ledger: Ledger, rid: string, now: Time)
    ensures LivePending(Renew(ledger, rid, now).0.reservations, now) == LivePending(ledger.reservations, now)
    ensures forall q <- ledger.reservations :: q in Expire(ledger.reservations, now)
    ensures forall q <- Expire(ledger.reservations, now) :: q in ledger.reservations
  {
    hide ValidId;
  }

  lemma CancelKeepsOthers(ledger: Ledger, rid: string, now: Time)
    ensures var (after, r) := Cancel(ledger, rid, now);
            && (r.Ok? <==> ValidId(rid) && ledger.index.Some? && rid in ledger.reservations
                           && ledger.reservations[rid].state != Committed)
            && LivePending(after.reservations, now)
               == if r.Ok? then LivePending(ledger.reservations, now) - {rid} else LivePending(ledger.reservations, now)
  {
    hide ValidId;
  }

  /** A publication under the lock, as its caller sees it. */
  lemma PublicationKept(w: World, p: Publication, rows: Rows, fault: Fault)
    requires IndexRows(p.manifest) == Ok(rows)
    ensures var (after, r) := PublishLocked(w, p, rows, fault);
            Invariant(w) && AssetMessages(w.vault, Assets(p.manifest)) ==>
              && Invariant(after)
              && (r.Ok? ==> && after.ledger.index == Some(IndexRef(r.value.id, p.manifest))
                            && ReadPinned(after.vault) == Ok(after.ledger.index) && after.ledger.beats == rows
                            && (!r.value.same ==> forall id <- p.purgeIds :: id !in rows))
  {
    hide IndexRows, CheckContents, CheckQuota, CheckBase, PurgedAssets, LedgerOk, DocumentsNameAssets, Assets,
         AssetMessages, Removed,
         ConfirmPurges, CommitReservations, Fresh;
    if Invariant(w) && AssetMessages(w.vault, Assets(p.manifest)) {
      PublishLockedKeeps(w, p, rows, fault);
      var (after, r) := PublishLocked(w, p, rows, fault);
      if r.Ok? && !r.value.same {
        PassedDocument(w.ledger, p, rows);
        SuccessIsPinned(w, ReadPinned(w.vault).value, p, rows);
      } else if r.Ok? {
        RowsOfCommitted(w);
      }
    }
  }

  lemma PassedDocument(ledger: Ledger, p: Publication, rows: Rows)
    requires CheckContents(ledger, Before(ledger), p.manifest, rows, p.purgeIds).None?
    ensures forall id <- p.purgeIds :: id !in rows
  {
    hide Clashes, BeatOf, DeletedIds, Untouched, Purged, MayLeave, Fresh;
  }

  lemma RowsOfCommitted(w: World)
    requires Invariant(w) && w.ledger.index.Some?
    ensures IndexRows(w.ledger.index.value.sha) == Ok(w.ledger.beats) && Holds(w.vault, w.ledger.index.value)
    ensures 0 < w.ledger.index.value.id
  {
    hide IndexRows, PurgesOk, PinOk, DocumentsNameAssets;
  }

  lemma SuccessIsPinned(w: World, current: Option<IndexRef>, p: Publication, rows: Rows)
    requires Invariant(w) && AssetMessages(w.vault, Assets(p.manifest)) && IndexRows(p.manifest) == Ok(rows)
    requires ReadPinned(w.vault) == Ok(current)
    requires CheckContents(w.ledger, Before(w.ledger), p.manifest, rows, p.purgeIds).None?
    ensures var (after, r) := Execute(w, current, p, rows, NoFault);
            && r.Ok? && after.ledger.index == Some(IndexRef(r.value.id, p.manifest)) && after.ledger.beats == rows
            && ReadPinned(after.vault) == Ok(after.ledger.index)
  {
    hide IndexRows, CheckContents, PurgedAssets, Removed, LedgerOk, DocumentsNameAssets, Assets, AssetMessages,
         ConfirmPurges,
         CommitReservations, Fresh;
    DeletesAssetsOnly(w, p, rows);
    var assets := PurgedAssets(w.ledger, Removed(w.ledger, rows));
    EraseKeeps(w, assets);
    if Adopts(current, p) {
      PinnedSurvives(w, assets, current.value);
    }
  }

  lemma PinnedRows(vault: Vault)
    ensures ReadPinned(vault).Ok? && ReadPinned(vault).value.Some? ==> IndexRows(ReadPinned(vault).value.value.sha).Ok?
  {
    hide IndexRows;
  }

  lemma NoTombstones(purges: map<BeatId, Purge>, ids: set<BeatId>)
    ensures WithTombstones(purges, ids - ids) == purges
            && WithTombstones(purges, ids - {}) == WithTombstones(purges, ids)
  {
    assert ids - {} == ids;
  }

  lemma TombstoneOneMore(purges: map<BeatId, Purge>, done: set<BeatId>, id: BeatId)
    ensures var some := WithTombstones(purges, done);
            WithTombstones(purges, done + {id}) == if id in some then some
            else some[id := Purge(LegacyTombstone, {}, None)]
  {
  }

  lemma EraseNothing(vault: Vault)
    ensures Erase(vault, {}) == vault
  {
  }

  ghost function AssetsToErase(ledger: Ledger, ids: set<BeatId>, fault: Fault): set<MsgId> {
    if fault.CutErasing? then PurgedAssets(ledger, ids) * fault.erased else PurgedAssets(ledger, ids)
  }

  lemma AssetsNone(ledger: Ledger, fault: Fault)
    ensures AssetsToErase(ledger, {}, fault) == {}
  {
  }

  lemma AssetsOneMore(ledger: Ledger, done: set<BeatId>, id: BeatId, fault: Fault, assets: set<MsgId>)
    requires assets == if id !in ledger.purges then {} else if fault.CutErasing?
             then ledger.purges[id].assets * fault.erased
                       else ledger.purges[id].assets
    ensures AssetsToErase(ledger, done + {id}, fault) == AssetsToErase(ledger, done, fault) + assets
  {
  }

  function Merged(before: Rows, rows: Rows, done: set<BeatId>): Rows {
    before + map id | id in rows && id in done :: rows[id]
  }

  function CommitFresh(held: Reservations, known: set<BeatId>, done: set<BeatId>): Reservations {
    CommitReservations(held, done - known)
  }

  lemma NothingMerged(before: Rows, held: Reservations, rows: Rows)
    ensures Merged(before, rows, rows.Keys - rows.Keys) == before
            && Merged(before, rows, rows.Keys - {}) == before + rows
    ensures CommitFresh(held, before.Keys, rows.Keys - rows.Keys) == held
    ensures CommitFresh(held, before.Keys, rows.Keys - {}) == CommitReservations(held, rows.Keys - before.Keys)
  {
    hide CommitReservations;
    CommitNone(held);
    assert rows.Keys - rows.Keys == {} && {} - before.Keys == {} && rows.Keys - {} == rows.Keys;
  }

  lemma MergeOneMore(before: Rows, held: Reservations, rows: Rows, done: set<BeatId>, id: BeatId)
    requires id in rows
    ensures Merged(before, rows, done + {id}) == Merged(before, rows, done)[id := rows[id]]
    ensures var some, rid := CommitFresh(held, before.Keys, done), ReservationId(id);
            CommitFresh(held, before.Keys, done + {id})
            == if id !in before.Keys && rid in some then some[rid := some[rid].(state := Committed)] else some
  {
    hide CommitReservations;
    CommitOneMore(held, done - before.Keys, id);
    if id in before.Keys {
      assert (done + {id}) - before.Keys == done - before.Keys;
    } else {
      assert (done + {id}) - before.Keys == (done - before.Keys) + {id};
    }
  }

  lemma RowsReplaced(before: Rows, rows: Rows)
    ensures (before + rows) - (before.Keys - rows.Keys) == rows
  {
  }

  lemma {:induction false} FirstRefusalStays(purges: map<BeatId, Purge>, doc: IndexRef, ids: seq<BeatId>, n: nat)
    requires n <= |ids| && RequestAll(purges, doc, ids[..n]).Err?
    ensures RequestAll(purges, doc, ids) == RequestAll(purges, doc, ids[..n])
    decreases |ids| - n
  {
    if n < |ids| {
      hide RequestOne;
      assert ids[..n + 1][..n] == ids[..n];
      FirstRefusalStays(purges, doc, ids, n + 1);
    } else {
      assert ids[..n] == ids;
    }
  }

  lemma CommittedAfterRequest(w: World, ids: seq<BeatId>, fault: PurgeFault)
    ensures var (recovered, r) := Recover(w, if fault.CutRecovering? then CutAfterPin else NoFault);
            RequestPurge(recovered, ids).1.None? ==> RequestPurge(recovered, ids).0.ledger.index.Some?
  {
    hide Recover, ReadPinned, RequestAll;
  }
}
