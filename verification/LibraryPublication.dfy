/** The protocol between the pinned INDEX in Telegram and the ledger in PostgreSQL.
    Every operation holds the vault's row lock, so it is one step; `Fault` is the place where its process dies. */
module LibraryPublication {
  import opened Wrappers
  import opened LibraryIndex
  import opened LibraryQuota

  /** Broken is a document with the INDEX caption that cannot be read; Other is any other message. */
  datatype Message = Index(manifest: Manifest) | Broken | Other

  /** A Telegram channel: `pin` is the pinned message or 0, `next` the id of the next message sent. */
  datatype Vault = Vault(messages: map<MsgId, Message>, pin: MsgId, next: MsgId)

  /** `doomed` are old copies whose deletion was requested after a commit and may happen at any later time, or never. */
  datatype World = World(ledger: Ledger, vault: Vault, doomed: set<MsgId>)

  datatype Fault = NoFault | CutErasing(erased: set<MsgId>) | CutAfterSend | CutAfterPin

  const NO_MANIFEST := Manifest([], [], [], 0)

  // Telegram.

  function Erase(vault: Vault, ids: set<MsgId>): Vault {
    Vault(vault.messages - ids, if vault.pin in ids then 0 else vault.pin, vault.next)
  }

  function Send(vault: Vault, message: Message): Vault {
    vault.(messages := vault.messages[vault.next := message], next := vault.next + 1)
  }

  function ReadPinned(vault: Vault): Result<Option<IndexRef>, Error> {
    if vault.pin == 0 then Ok(None)
    else if vault.pin !in vault.messages || vault.messages[vault.pin].Other? then Err(IndexUnverified)
    else if vault.messages[vault.pin].Broken? then Err(IndexInvalid)
    else
      var m := vault.messages[vault.pin].manifest;
      var rows := IndexRows(m);
      if rows.Err? then Err(rows.error) else Ok(Some(IndexRef(vault.pin, m)))
  }

  function IdOf(current: Option<IndexRef>): MsgId {
    if current.Some? then current.value.id else 0
  }

  predicate Holds(vault: Vault, doc: IndexRef) {
    doc.id in vault.messages && vault.messages[doc.id] == Index(doc.sha)
  }

  // Bootstrap: the first ledger of a vault that already has an INDEX.

  function WithTombstones(purges: map<BeatId, Purge>, ids: set<BeatId>): map<BeatId, Purge> {
    (map id | id in ids :: Purge(LegacyTombstone, {}, None)) + purges
  }

  /** The first tombstone that is no id, or that the document still lists. */
  function TombstoneError(deleted: seq<BeatId>, rows: Rows): Option<Error> {
    if deleted == [] then None
    else if !ValidId(deleted[0]) then Some(InvalidInput)
    else if deleted[0] in rows then Some(IndexInvalid)
    else TombstoneError(deleted[1..], rows)
  }

  lemma {:induction false} NoTombstoneError(deleted: seq<BeatId>, rows: Rows)
    ensures TombstoneError(deleted, rows).None? <==> forall id <- deleted :: ValidId(id) && id !in rows
  {
    if deleted != [] {
      hide ValidId;
      NoTombstoneError(deleted[1..], rows);
      assert deleted == [deleted[0]] + deleted[1..];
    }
  }

  function Bootstrap(w: World, now: Time): (World, Option<Error>) {
    var current := ReadPinned(w.vault);
    if current.Err? then (w, Some(current.error))
    else if current.value.None? then (w, Some(IndexUnverified))
    else if w.ledger.index.Some? then
      if w.ledger.index != current.value then (w, Some(IndexChanged)) else (w.(ledger := Expiring(w.ledger, now)), None)
    else
      var doc := current.value.value;
      var rows := IndexRows(doc.sha).value;
      var refused := TombstoneError(doc.sha.deleted, rows);
      if refused.Some? then (w, refused)
      else (w.(ledger := w.ledger.(index := Some(doc), beats := rows,
                                   purges := WithTombstones(w.ledger.purges, DeletedIds(doc.sha)))), None)
  }

  // Recovery: the ledger decides which document is pinned.

  datatype Recovery = NotInitialized | AlreadyCurrent | Restored

  function Recover(w: World, fault: Fault): (World, Result<Recovery, Error>) {
    if w.ledger.index.None? then (w, Ok(NotInitialized))
    else
      var doc := w.ledger.index.value;
      var pinned := ReadPinned(w.vault);
      if pinned.Err? && pinned.error !in {IndexUnverified, IndexInvalid} then (w, Err(pinned.error))
      else
        var current := if pinned.Ok? then pinned.value else None;
        if current != Some(doc) && !Holds(w.vault, doc) then (w, Err(IndexChanged))
        else if IndexRows(doc.sha).Err? then (w, Err(IndexRows(doc.sha).error))
        else if DeletedIds(doc.sha) * IndexRows(doc.sha).value.Keys != {} then (w, Err(IndexInvalid))
        else
          var ledger := w.ledger.(purges := WithTombstones(w.ledger.purges, DeletedIds(doc.sha)));
          if current == Some(doc) then (w.(ledger := ledger), Ok(AlreadyCurrent))
          else
            var vault := w.vault.(pin := doc.id);
            if !fault.NoFault? then (w.(vault := vault), Err(Interrupted))
            else
              var orphan := if IdOf(current) == doc.id then 0 else IdOf(current);
              (World(ledger, vault, w.doomed + ({orphan} - {0})), Ok(Restored))
  }

  // Publication.

  datatype Publication = Publication(manifest: Manifest, expected: MsgId, purgeIds: set<BeatId>, limit: Option<nat>,
                                     now: Time)

  datatype Published = Published(id: MsgId, previous: MsgId, same: bool)

  predicate IsSame(ledger: Ledger, current: Option<IndexRef>, m: Manifest) {
    ledger.index.Some? && ledger.index.value.sha == m && ledger.index.value.id == IdOf(current)
  }

  function CheckBase(w: World, current: Option<IndexRef>, p: Publication, rows: Rows): Option<Error> {
    var ledger := w.ledger;
    if ledger.index.Some? then
      if ledger.index.value.id != p.expected then Some(IndexChanged)
      else if IdOf(current) != p.expected && !(current.Some? && current.value.sha == p.manifest) then Some(IndexChanged)
      else if IdOf(current) == p.expected && current != ledger.index then Some(IndexChanged)
      else if IdOf(current) != p.expected && !Holds(w.vault, ledger.index.value) then Some(IndexChanged)
      else None
    else if p.expected != 0 || current.Some? || rows != map[] then Some(Uninitialized)
    else None
  }

  function Removed(ledger: Ledger, rows: Rows): set<BeatId> {
    ledger.beats.Keys - rows.Keys
  }

  function Fresh(ledger: Ledger, rows: Rows): set<BeatId> {
    rows.Keys - ledger.beats.Keys
  }

  predicate IsPending(ledger: Ledger, id: BeatId) {
    id in ledger.purges && ledger.purges[id].state == Pending
  }

  predicate Purged(ledger: Ledger, previous: Manifest, id: BeatId) {
    (id in ledger.purges && ledger.purges[id].state != Pending) || id in DeletedIds(previous)
  }

  /** A pending purge not carried out here must find its beat in Trash, as it was. */
  predicate Untouched(previous: Manifest, m: Manifest, rows: Rows, id: BeatId) {
    id in rows && rows[id] == Trash && BeatOf(previous, id) == BeatOf(m, id)
  }

  predicate MayLeave(ledger: Ledger, previous: Manifest, m: Manifest, id: BeatId) {
    && id in DeletedIds(m) && id in ledger.beats && ledger.beats[id] == Trash
    && IsPending(ledger, id) && BeatOf(previous, id) == ledger.purges[id].beat
  }

  function CheckContents(ledger: Ledger, previous: Manifest, m: Manifest, rows: Rows,
                         purgeIds: set<BeatId>): Option<Error> {
    var tombstones, prior := DeletedIds(m), DeletedIds(previous);
    if Removed(ledger, rows) != purgeIds then Some(PurgeRequired)
    else if !(prior <= tombstones) || !(tombstones <= prior + purgeIds) then Some(PurgeTombstone)
    else if exists id <- rows :: Purged(ledger, previous, id) then Some(PurgeTombstone)
    else if exists id <- ledger.purges :: IsPending(ledger, id) && id !in purgeIds && !Untouched(previous, m, rows, id)
                                          then Some(PurgePending)
    else if exists id <- ledger.purges :: IsPending(ledger, id) && Clashes(m, id, ledger.purges[id].assets)
                                          then Some(AssetsUnverified)
    else if exists id <- Removed(ledger, rows) :: !MayLeave(ledger, previous, m, id) then Some(IndexInvalid)
    else if exists id <- Fresh(ledger, rows) :: id in ledger.purges || id in prior then Some(PurgeTombstone)
    else None
  }

  function ReservationId(id: BeatId): string {
    "new:" + id
  }

  predicate HasReservation(ledger: Ledger, id: BeatId, now: Time) {
    && ReservationId(id) in ledger.reservations && ledger.reservations[ReservationId(id)].beat == id
    && Live(ledger.reservations[ReservationId(id)], now)
  }

  function CheckQuota(ledger: Ledger, rows: Rows, limit: Option<nat>, now: Time): Option<Error> {
    var added := Fresh(ledger, rows);
    if added == {} then None
    else if limit.Some? && (|ledger.beats| >= limit.value || |ledger.beats| + |added| > limit.value
                            || Occupied(ledger, now) > limit.value)
    then Some(Exceeded)
    else if exists id <- added :: !HasReservation(ledger, id, now) then Some(ReservationNotFound)
    else None
  }

  /** Every beat that is new to the ledger waits under its own reservation, and the library has room for all of them
      beside whatever else waits. */
  ghost predicate RoomFor(ledger: Ledger, rows: Rows, limit: Option<nat>, now: Time) {
    var added := rows.Keys - ledger.beats.Keys;
    && (forall id <- added :: Waits(ledger.reservations, "new:" + id, now)
                              && ledger.reservations["new:" + id].beat == id)
    && (added != {} && limit.Some? ==>
          |ledger.beats| + |added| <= limit.value && Taken(ledger, now) <= limit.value)
  }

  /** The quota refuses exactly what has no room: with an error of its own when it is places that are missing. */
  lemma QuotaExactly(ledger: Ledger, rows: Rows, limit: Option<nat>, now: Time)
    ensures CheckQuota(ledger, rows, limit, now).None? <==> RoomFor(ledger, rows, limit, now)
    ensures CheckQuota(ledger, rows, limit, now) == Some(Exceeded) <==>
              var added := rows.Keys - ledger.beats.Keys;
              added != {} && limit.Some? && (|ledger.beats| + |added| > limit.value || Taken(ledger, now) > limit.value)
  {
    hide Taken, Occupied;
    TakenIsOccupied(ledger, now);
    var added := Fresh(ledger, rows);
    assert added != {} ==> |added| > 0;
    assert forall id :: ReservationId(id) == "new:" + id;
  }

  function PurgedAssets(ledger: Ledger, ids: set<BeatId>): set<MsgId> {
    set id, a | id in ids && id in ledger.purges && a in ledger.purges[id].assets :: a
  }

  function ConfirmPurges(purges: map<BeatId, Purge>, ids: set<BeatId>): map<BeatId, Purge> {
    map id | id in purges :: if id in ids then purges[id].(state := Confirmed) else purges[id]
  }

  function CommitReservations(reservations: Reservations, ids: set<BeatId>): Reservations {
    map rid | rid in reservations ::
      if exists id <- ids :: ReservationId(id) == rid then reservations[rid].(state := Committed) else reservations[rid]
  }

  /** The ledger once document `id` with content `m` is committed in place of `expected`. */
  function CommitTo(ledger: Ledger, id: MsgId, m: Manifest, rows: Rows, expected: MsgId): Ledger {
    Ledger(Some(IndexRef(id, m)), rows, ConfirmPurges(ledger.purges, Removed(ledger, rows)),
           CommitReservations(ledger.reservations, Fresh(ledger, rows)),
           Some(Pointer(id, expected, if ledger.pointer.Some? then ledger.pointer.value.revision + 1 else 1)), false)
  }

  predicate Adopts(current: Option<IndexRef>, p: Publication) {
    current.Some? && current.value.sha == p.manifest && current.value.id != p.expected
  }

  /** Everything after the checks: delete purged assets, send and pin (or adopt the pinned copy), commit, doom the old
      copy. */
  function Execute(w: World, current: Option<IndexRef>, p: Publication, rows: Rows,
                   fault: Fault): (World, Result<Published, Error>) {
    var assets := PurgedAssets(w.ledger, Removed(w.ledger, rows));
    if fault.CutErasing? then (w.(vault := Erase(w.vault, assets * fault.erased)), Err(Interrupted))
    else
      var erased := Erase(w.vault, assets);
      var adopts := Adopts(current, p);
      var sent := if adopts then erased else Send(erased, Index(p.manifest));
      var id := if adopts then current.value.id else erased.next;
      if fault.CutAfterSend? then (w.(vault := sent), Err(Interrupted))
      else
        var pinned := if adopts then sent else sent.(pin := id);
        if fault.CutAfterPin? then (w.(vault := pinned), Err(Interrupted))
        else (World(CommitTo(w.ledger, id, p.manifest, rows, p.expected), pinned, w.doomed + ({p.expected} - {0, id})),
              Ok(Published(id, p.expected, false)))
  }

  function PublishLocked(w: World, p: Publication, rows: Rows, fault: Fault): (World, Result<Published, Error>) {
    var read := ReadPinned(w.vault);
    if read.Err? then (w, Err(read.error))
    else
      var current := read.value;
      if w.ledger.index.None? && !w.ledger.bootstrapPending then (w, Err(Uninitialized))
      else if w.ledger.index.None? && w.ledger.pointer.Some? then (w, Err(IndexChanged))
      else if IsSame(w.ledger, current, p.manifest) then
        var prior := if w.ledger.pointer.Some? then w.ledger.pointer.value.predecessor else 0;
        (w.(doomed := w.doomed + ({prior} - {0, IdOf(current)})), Ok(Published(IdOf(current), prior, true)))
      else
        var base := CheckBase(w, current, p, rows);
        if base.Some? then (w, Err(base.value))
        else
          var previous := if w.ledger.index.Some? then w.ledger.index.value.sha else NO_MANIFEST;
          var contents := CheckContents(w.ledger, previous, p.manifest, rows, p.purgeIds);
          if contents.Some? then (w, Err(contents.value))
          else
            var quota := CheckQuota(w.ledger, rows, p.limit, p.now);
            if quota.Some? then (w, Err(quota.value)) else Execute(w, current, p, rows, fault)
  }

  function Publish(w: World, p: Publication, fault: Fault): (World, Result<Published, Error>) {
    var rows := IndexRows(p.manifest);
    if rows.Err? then (w, Err(rows.error))
    else if w.ledger.index.None? && ReadPinned(w.vault) != Ok(None) then
      var (initialized, error) := Bootstrap(w, p.now);
      if error.Some? then (initialized, Err(error.value)) else PublishLocked(initialized, p, rows.value, fault)
    else PublishLocked(w, p, rows.value, fault)
  }

  // Purging Trash: first a PENDING row for every beat, then a publication without them.

  function RequestOne(purges: map<BeatId, Purge>, doc: IndexRef, id: BeatId): Result<map<BeatId, Purge>, Error> {
    if id in purges && purges[id].state == Confirmed then Ok(purges)
    else
      var trash := ById(doc.sha.trash);
      if id !in trash then Err(InvalidInput)
      else
        var beat := trash[id];
        if !Verifiable(beat) || doc.id in Messages(beat) || Clashes(doc.sha, id, Messages(beat))
           then Err(AssetsUnverified)
        else if id in purges then if purges[id].beat == Some(beat) && purges[id].assets == Messages(beat)
                then Ok(purges) else Err(PurgePending)
        else Ok(purges[id := Purge(Pending, Messages(beat), Some(beat))])
  }

  function RequestAll(purges: map<BeatId, Purge>, doc: IndexRef, ids: seq<BeatId>): Result<map<BeatId, Purge>, Error> {
    if ids == [] then Ok(purges)
    else
      var before := RequestAll(purges, doc, ids[..|ids| - 1]);
      if before.Err? then before else RequestOne(before.value, doc, ids[|ids| - 1])
  }

  function RequestPurge(w: World, ids: seq<BeatId>): (World, Option<Error>) {
    var current := ReadPinned(w.vault);
    if current.Err? then (w, Some(current.error))
    else if w.ledger.index.None? || current.value != w.ledger.index then (w, Some(IndexChanged))
    else
      var purges := RequestAll(w.ledger.purges, w.ledger.index.value, ids);
      if purges.Err? then (w, Some(purges.error)) else (w.(ledger := w.ledger.(purges := purges.value)), None)
  }

  function Without(beats: seq<Beat>, ids: set<BeatId>): seq<Beat> {
    if beats == [] then []
    else Without(beats[..|beats| - 1], ids) + (if beats[|beats| - 1].id in ids then [] else [beats[|beats| - 1]])
  }

  /** The document without the purged beats, with a tombstone for each; `stamp` is what else the purge changes in it. */
  function PurgedManifest(m: Manifest, ids: seq<BeatId>, stamp: int): Manifest {
    Manifest(m.beats, Without(m.trash, set id | id in ids), m.deleted + ids, stamp)
  }

  function StillPending(ledger: Ledger, ids: seq<BeatId>): seq<BeatId> {
    if ids == [] then []
    else StillPending(ledger, ids[..|ids| - 1]) + (if IsPending(ledger, ids[|ids| - 1]) then [ids[|ids| - 1]] else [])
  }

  /** The requested ids, each once, in the order in which they first stand. */
  function Distinct(ids: seq<BeatId>): seq<BeatId> {
    if ids == [] then []
    else
      var before, id := Distinct(ids[..|ids| - 1]), ids[|ids| - 1];
      if id in before then before else before + [id]
  }

  predicate AllConfirmed(ledger: Ledger, ids: seq<BeatId>) {
    forall id <- ids :: id in ledger.purges && ledger.purges[id].state == Confirmed
  }

  /** Where a purge stops: in its recovery, before it, or in its publication. */
  datatype PurgeFault = PurgeCompletes | CutRecovering | CutAfterRequest | CutPublishing(fault: Fault)

  function PurgeTrash(w: World, beatIds: seq<BeatId>, stamp: int, now: Time,
                      fault: PurgeFault): (World, Option<Error>) {
    var ids := Distinct(beatIds);
    if ids == [] || exists id <- ids :: !ValidId(id) then (w, Some(InvalidInput))
    else
      var (recovered, r) := Recover(w, if fault.CutRecovering? then CutAfterPin else NoFault);
      if r.Err? then (recovered, Some(r.error))
      else
        var (requested, refused) := RequestPurge(recovered, ids);
        if refused.Some? then (requested, refused)
        else if fault.CutAfterRequest? then (requested, Some(Interrupted))
        else
          var remaining := StillPending(requested.ledger, ids);
          if remaining == [] then (requested, None) else PublishPurge(requested, ids, remaining, stamp, now, fault)
  }

  /** The last phase: the pinned document without what is still pending; what counts in the end is what is confirmed. */
  function PublishPurge(w: World, ids: seq<BeatId>, remaining: seq<BeatId>, stamp: int, now: Time,
                        fault: PurgeFault): (World, Option<Error>)
    requires w.ledger.index.Some?
  {
    var doc := w.ledger.index.value;
    var p := Publication(PurgedManifest(doc.sha, remaining, stamp), doc.id, (set id | id in remaining), None, now);
    var (published, outcome) := Publish(w, p, if fault.CutPublishing? then fault.fault else NoFault);
    (published, if outcome.Err? && !AllConfirmed(published.ledger, ids) then Some(outcome.error) else None)
  }
}
