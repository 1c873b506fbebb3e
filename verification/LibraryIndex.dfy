/** INDEX documents, the ledger that mirrors one of them, and the rows an INDEX stands for. */
module LibraryIndex {
  import opened Wrappers
  import TrashAssets

  type BeatId = string
  type Time = nat

  /** A Telegram message id; 0 stands for none. */
  type MsgId = nat

  /** `record` is every part of the beat that can name a message, `content` everything else in it. */
  datatype Beat = Beat(id: BeatId, record: TrashAssets.Beat, content: string)

  /** Collecting the messages the beat names does not fail: no id or locator in it is malformed. */
  predicate WellFormed(beat: Beat) {
    TrashAssets.MessageIds(TrashAssets.Whole(beat.record)).Some?
  }

  /** The messages the beat's files live in. */
  function Messages(beat: Beat): set<MsgId> {
    var ids := TrashAssets.MessageIds(TrashAssets.Whole(beat.record));
    if ids.Some? then ids.value else {}
  }

  /** Every file of the beat names a message. */
  predicate Verifiable(beat: Beat) {
    TrashAssets.BeatAssets(beat.record).Some?
  }

  lemma VerifiableIsWellFormed(beat: Beat)
    ensures Verifiable(beat) ==> WellFormed(beat) && Messages(beat) != {}
    ensures Verifiable(beat) ==> TrashAssets.BeatAssets(beat.record) == Some(Messages(beat))
  {
    hide TrashAssets.Whole, TrashAssets.MessageIds;
    if Verifiable(beat) {
      TrashAssets.AssetsCoverTheBeat(beat.record, 0);
    }
  }

  /** A library document; `extra` is everything else in it. Documents with equal digests are equal. */
  datatype Manifest = Manifest(beats: seq<Beat>, trash: seq<Beat>, deleted: seq<BeatId>, extra: int)

  datatype BeatState = Active | Trash

  type Rows = map<BeatId, BeatState>

  datatype Error =
    | InvalidInput | IndexUnverified | IndexInvalid | IndexChanged | Uninitialized | Exceeded
    | PurgeRequired | PurgeTombstone | PurgePending | AssetsUnverified
    | ReservationNotFound | ReservationClosed | IdentityConflict | BeatExists | BeatReserved
    | Interrupted  // the process died, or a Telegram call failed

  // The ledger: one user's rows in PostgreSQL.

  datatype IndexRef = IndexRef(id: MsgId, sha: Manifest)

  datatype PurgeState = Pending | Confirmed | LegacyTombstone

  /** A row of library_trash_purges; `beat` is the digest of the beat when the purge was requested. */
  datatype Purge = Purge(state: PurgeState, assets: set<MsgId>, beat: Option<Beat>)

  /** Reserved is the state the table calls PENDING. */
  datatype ReservationState = Reserved | Committed | Canceled | Expired | Denied

  datatype Reservation = Reservation(beat: BeatId, state: ReservationState, expiresAt: Time)

  datatype Pointer = Pointer(index: MsgId, predecessor: MsgId, revision: nat)

  datatype Ledger = Ledger(
    index: Option<IndexRef>, beats: Rows, purges: map<BeatId, Purge>, reservations: map<string, Reservation>,
    pointer: Option<Pointer>, bootstrapPending: bool)

  // Rows of a document.

  predicate ValidId(id: BeatId) {
    0 < |id| <= 256
  }

  function AddRows(rows: Rows, beats: seq<Beat>, state: BeatState): Result<Rows, Error> {
    if beats == [] then Ok(rows)
    else
      var before, beat := AddRows(rows, beats[..|beats| - 1], state), beats[|beats| - 1];
      if before.Err? then before
      else if !ValidId(beat.id) then Err(InvalidInput)
      else if beat.id in before.value then Err(IndexInvalid)
      else Ok(before.value[beat.id := state])
  }

  function IndexRows(m: Manifest): Result<Rows, Error> {
    var active := AddRows(map[], m.beats, Active);
    if active.Err? then active else AddRows(active.value, m.trash, Trash)
  }

  function DeletedIds(m: Manifest): set<BeatId> {
    set id | id in m.deleted && id != ""
  }

  function AllBeats(m: Manifest): seq<Beat> {
    m.beats + m.trash
  }

  function ById(beats: seq<Beat>): map<BeatId, Beat> {
    if beats == [] then map[] else ById(beats[..|beats| - 1])[beats[|beats| - 1].id := beats[|beats| - 1]]
  }

  /** The beat with this id, as its digest sees it: none when the document does not list it. */
  function BeatOf(m: Manifest, id: BeatId): Option<Beat> {
    var rows := ById(AllBeats(m));
    if id in rows then Some(rows[id]) else None
  }

  function Assets(m: Manifest): set<MsgId> {
    set b, a | b in AllBeats(m) && a in Messages(b) :: a
  }

  /** Another beat of the document is malformed or uses one of these messages. */
  predicate Clashes(m: Manifest, id: BeatId, assets: set<MsgId>) {
    assets != {} && exists b <- AllBeats(m) :: b.id != id && (!WellFormed(b) || Messages(b) * assets != {})
  }

  // What the rows say about the document.

  ghost predicate Lists(beats: seq<Beat>, id: BeatId) {
    exists b <- beats :: b.id == id
  }

  ghost predicate OneBeatPerId(beats: seq<Beat>) {
    forall b, c | b in beats && c in beats && b.id == c.id :: b == c
  }

  lemma {:induction false} AddRowsAt(rows: Rows, beats: seq<Beat>, state: BeatState, id: BeatId)
    requires AddRows(rows, beats, state).Ok?
    ensures var r := AddRows(rows, beats, state).value;
            && (id in r <==> id in rows || Lists(beats, id)) && (Lists(beats, id) ==> id !in rows && ValidId(id))
            && (id in r ==> r[id] == if id in rows then rows[id] else state)
  {
    if beats != [] {
      hide ValidId;
      var before, beat := beats[..|beats| - 1], beats[|beats| - 1];
      assert beats == before + [beat] && beat in beats;
      AddRowsAt(rows, before, state, id);
      AddRowsAt(rows, before, state, beat.id);
      assert Lists(beats, id) <==> Lists(before, id) || beat.id == id;
    }
  }

  lemma AddRowsNext(rows: Rows, before: seq<Beat>, beat: Beat, state: BeatState)
    requires AddRows(rows, before, state).Ok?
    ensures var r := AddRows(rows, before, state).value;
            && (AddRows(rows, before + [beat], state).Ok? <==> ValidId(beat.id) && beat.id !in r)
            && (AddRows(rows, before + [beat], state).Ok? ==> AddRows(rows, before + [beat], state).value
                                                              == r[beat.id := state])
  {
    hide ValidId;
    assert (before + [beat])[..|before + [beat]| - 1] == before;
  }

  lemma {:induction false} AddRowsUnique(rows: Rows, beats: seq<Beat>, state: BeatState)
    requires AddRows(rows, beats, state).Ok?
    ensures OneBeatPerId(beats)
  {
    if beats != [] {
      hide ValidId;
      var before, beat := beats[..|beats| - 1], beats[|beats| - 1];
      assert beats == before + [beat];
      AddRowsUnique(rows, before, state);
      AddRowsAt(rows, before, state, beat.id);
    }
  }

  /** A document's rows hold exactly its beats, each under the list it stands in, and ids name one beat each. */
  lemma IndexRowsSay(m: Manifest)
    requires IndexRows(m).Ok?
    ensures var r := IndexRows(m).value;
            && (forall id :: id in r <==> Lists(AllBeats(m), id))
            && (forall id <- r :: r[id] == if Lists(m.trash, id) then Trash else Active)
            && (forall id :: !(Lists(m.beats, id) && Lists(m.trash, id)))
            && OneBeatPerId(AllBeats(m))
  {
    hide AddRows, ValidId, Lists, OneBeatPerId;
    var active := AddRows(map[], m.beats, Active).value;
    forall id
      ensures id in IndexRows(m).value <==> Lists(AllBeats(m), id)
      ensures id in IndexRows(m).value ==> IndexRows(m).value[id] == if Lists(m.trash, id) then Trash else Active
      ensures Lists(m.trash, id) ==> !Lists(m.beats, id)
    {
      AddRowsAt(map[], m.beats, Active, id);
      AddRowsAt(active, m.trash, Trash, id);
      ListsInTwo(m.beats, m.trash, id);
    }
    AddRowsUnique(map[], m.beats, Active);
    AddRowsUnique(active, m.trash, Trash);
    UniqueInTwo(m);
  }

  lemma ListsInTwo(xs: seq<Beat>, ys: seq<Beat>, id: BeatId)
    ensures Lists(xs + ys, id) <==> Lists(xs, id) || Lists(ys, id)
  {
  }

  lemma UniqueInTwo(m: Manifest)
    requires OneBeatPerId(m.beats) && OneBeatPerId(m.trash)
    requires forall id :: Lists(m.trash, id) ==> !Lists(m.beats, id)
    ensures OneBeatPerId(AllBeats(m))
    ensures forall b <- m.beats :: Lists(m.beats, b.id)
    ensures forall b <- m.trash :: Lists(m.trash, b.id)
  {
    assert forall b <- m.beats :: Lists(m.beats, b.id);
    assert forall b <- m.trash :: Lists(m.trash, b.id);
  }

  lemma {:induction false} ByIdSays(beats: seq<Beat>)
    ensures forall id <- ById(beats) :: ById(beats)[id] in beats && ById(beats)[id].id == id
    ensures forall b <- beats :: b.id in ById(beats)
  {
    if beats != [] {
      var before, beat := beats[..|beats| - 1], beats[|beats| - 1];
      assert beats == before + [beat];
      ByIdSays(before);
    }
  }

  lemma BeatOfSays(m: Manifest, id: BeatId)
    requires IndexRows(m).Ok?
    ensures BeatOf(m, id).Some? ==> BeatOf(m, id).value in AllBeats(m) && BeatOf(m, id).value.id == id
    ensures BeatOf(m, id).Some? <==> id in IndexRows(m).value
    ensures forall b <- AllBeats(m) :: b.id == id ==> BeatOf(m, id) == Some(b)
    ensures BeatOf(m, id).Some? && IndexRows(m).value[id] == Trash ==> BeatOf(m, id).value in m.trash
  {
    hide IndexRows, ById;
    IndexRowsSay(m);
    ByIdSays(AllBeats(m));
    if BeatOf(m, id).Some? {
      assert Lists(AllBeats(m), id);
    }
  }

  /** Filling a Map from the two lists, as the original does, gives the rows or the first error. */
  method BuildRows(m: Manifest) returns (r: Result<Rows, Error>)
    ensures r == IndexRows(m)
  {
    var rows: Rows := map[];
    var i := 0;
    while i < |m.beats|
      invariant 0 <= i <= |m.beats| && AddRows(map[], m.beats[..i], Active) == Ok(rows)
    {
      assert m.beats[..i + 1][..i] == m.beats[..i];
      var id := m.beats[i].id;
      if !ValidId(id) || id in rows {
        FirstErrorStays(map[], m.beats, Active, i + 1);
        return Err(if !ValidId(id) then InvalidInput else IndexInvalid);
      }
      rows := rows[id := Active];
      i := i + 1;
    }
    assert m.beats[..i] == m.beats;
    ghost var active := rows;
    i := 0;
    while i < |m.trash|
      invariant 0 <= i <= |m.trash| && AddRows(active, m.trash[..i], Trash) == Ok(rows)
    {
      assert m.trash[..i + 1][..i] == m.trash[..i];
      var id := m.trash[i].id;
      if !ValidId(id) || id in rows {
        FirstErrorStays(active, m.trash, Trash, i + 1);
        return Err(if !ValidId(id) then InvalidInput else IndexInvalid);
      }
      rows := rows[id := Trash];
      i := i + 1;
    }
    assert m.trash[..i] == m.trash;
    return Ok(rows);
  }

  lemma {:induction false} FirstErrorStays(rows: Rows, beats: seq<Beat>, state: BeatState, n: nat)
    requires n <= |beats| && AddRows(rows, beats[..n], state).Err?
    ensures AddRows(rows, beats, state) == AddRows(rows, beats[..n], state)
    decreases |beats| - n
  {
    if n < |beats| {
      assert beats[..n + 1][..n] == beats[..n];
      FirstErrorStays(rows, beats, state, n + 1);
    } else {
      assert beats[..n] == beats;
    }
  }
}
