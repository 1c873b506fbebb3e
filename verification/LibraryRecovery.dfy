/** What the service reads from a channel, and what bootstrap and recovery make of it, field by field. */
module LibraryRecovery {
  import opened Wrappers
  import opened LibraryIndex
  import opened LibraryQuota
  import opened LibraryPublication

  // Which documents can be read.

  /** Ids are present, no longer than allowed, and all different. */
  ghost predicate Rowable(beats: seq<Beat>) {
    && (forall b <- beats :: 0 < |b.id| <= 256)
    && forall i, j | 0 <= i < j < |beats| :: beats[i].id != beats[j].id
  }

  /** The first beat that cannot become a row has an id that is none. */
  ghost predicate BadIdFirst(beats: seq<Beat>) {
    exists i | 0 <= i < |beats| :: Rowable(beats[..i]) && !(0 < |beats[i].id| <= 256)
  }

  ghost predicate Beside(rows: Rows, beats: seq<Beat>) {
    forall b <- beats :: b.id !in rows
  }

  lemma RowableNext(before: seq<Beat>, beat: Beat)
    ensures Rowable(before + [beat]) <==> Rowable(before) && 0 < |beat.id| <= 256 && !Lists(before, beat.id)
  {
    var beats := before + [beat];
    assert beats[|before|] == beat && beat in beats;
    assert forall i | 0 <= i < |before| :: beats[i] == before[i] && before[i] in beats;
    if Rowable(before) && 0 < |beat.id| <= 256 && !Lists(before, beat.id) {
      assert forall i | 0 <= i < |before| :: before[i] in before;
    }
  }

  lemma BadIdNext(before: seq<Beat>, beat: Beat)
    ensures BadIdFirst(before + [beat]) <==> BadIdFirst(before) || (Rowable(before) && !(0 < |beat.id| <= 256))
  {
    hide Rowable;
    var beats := before + [beat];
    assert beats[..|before|] == before;
    assert forall i | 0 <= i < |before| :: beats[..i] == before[..i] && beats[i] == before[i];
    if BadIdFirst(beats) {
      var i :| 0 <= i < |beats| && Rowable(beats[..i]) && !(0 < |beats[i].id| <= 256);
      assert i < |before| ==> Rowable(before[..i]);
    }
  }

  /** Adding a list's rows to those of another: possible, or stopped by a bad id, as for the two lists in one. */
  lemma {:induction false} AddRowsExactly(rows: Rows, prior: seq<Beat>, beats: seq<Beat>, state: BeatState)
    requires Rowable(prior) && forall id :: id in rows <==> Lists(prior, id)
    ensures AddRows(rows, beats, state).Ok? <==> Rowable(prior + beats)
    ensures AddRows(rows, beats, state) == Err(InvalidInput) <==> BadIdFirst(prior + beats)
    ensures AddRows(rows, beats, state).Err? ==> AddRows(rows, beats, state).error in {InvalidInput, IndexInvalid}
  {
    if beats == [] {
      assert prior + beats == prior;
    } else {
      hide Rowable, BadIdFirst, Lists;
      var before, beat := beats[..|beats| - 1], beats[|beats| - 1];
      AddRowsExactly(rows, prior, before, state);
      assert prior + beats == prior + before + [beat];
      RowableNext(prior + before, beat);
      BadIdNext(prior + before, beat);
      if AddRows(rows, before, state).Ok? {
        AddRowsAt(rows, before, state, beat.id);
        ListsInTwo(prior, before, beat.id);
        RowableIsGood(prior + before);
      }
    }
  }

  lemma RowableIsGood(beats: seq<Beat>)
    ensures Rowable(beats) ==> !BadIdFirst(beats)
  {
  }

  lemma FirstStays(xs: seq<Beat>, ys: seq<Beat>)
    requires !Rowable(xs)
    ensures !Rowable(xs + ys) && (BadIdFirst(xs + ys) <==> BadIdFirst(xs))
  {
    forall i | 0 <= i <= |xs + ys|
      ensures if i <= |xs| then (xs + ys)[..i] == xs[..i] else !Rowable((xs + ys)[..i])
    {
      if i > |xs| {
        PrefixIsRowable(xs, (xs + ys)[..i]);
      }
    }
    PrefixIsRowable(xs, xs + ys);
    assert xs[..|xs|] == xs;
  }

  lemma PrefixIsRowable(xs: seq<Beat>, ys: seq<Beat>)
    requires xs <= ys
    ensures Rowable(ys) ==> Rowable(xs)
  {
    if Rowable(ys) {
      assert forall b <- xs :: b in ys;
      assert forall i | 0 <= i < |xs| :: xs[i] == ys[i];
    }
  }

  /** A document has rows exactly when its beats, live and in Trash together, have present and different ids; which of
      the two errors it is depends on the first beat that does not. */
  lemma IndexRowsExactly(m: Manifest)
    ensures IndexRows(m).Ok? <==> Rowable(AllBeats(m))
    ensures IndexRows(m) == Err(InvalidInput) <==> BadIdFirst(AllBeats(m))
    ensures IndexRows(m).Err? ==> IndexRows(m).error in {InvalidInput, IndexInvalid}
  {
    assert Rowable([]) && forall id :: !Lists([], id);
    hide AddRows, Rowable, BadIdFirst, Lists;
    AddRowsExactly(map[], [], m.beats, Active);
    assert [] + m.beats == m.beats;
    var active := AddRows(map[], m.beats, Active);
    if active.Ok? {
      forall id
        ensures id in active.value <==> Lists(m.beats, id)
      {
        AddRowsAt(map[], m.beats, Active, id);
      }
      AddRowsExactly(active.value, m.beats, m.trash, Trash);
    } else {
      FirstStays(m.beats, m.trash);
    }
  }

  // What is pinned.

  /** The pinned message is a document with this content, and its beats have rows. */
  ghost predicate Pins(vault: Vault, m: Manifest) {
    && vault.pin != 0 && vault.pin in vault.messages && vault.messages[vault.pin] == Index(m)
    && Rowable(AllBeats(m))
  }

  /** Something else than an INDEX document is pinned, or the pinned message is gone. */
  ghost predicate PinsNoIndex(vault: Vault) {
    vault.pin != 0 && (vault.pin !in vault.messages || vault.messages[vault.pin].Other?)
  }

  /** The first fault in the pinned document is a beat without a usable id. */
  ghost predicate PinsBadId(vault: Vault) {
    && vault.pin != 0 && vault.pin in vault.messages && vault.messages[vault.pin].Index?
    && BadIdFirst(AllBeats(vault.messages[vault.pin].manifest))
  }

  /** Reading the pin: nothing, the document pinned, or one of three errors. */
  lemma PinnedExactly(vault: Vault, m: Manifest)
    ensures ReadPinned(vault) == Ok(None) <==> vault.pin == 0
    ensures ReadPinned(vault) == Ok(Some(IndexRef(vault.pin, m))) <==> Pins(vault, m)
    ensures ReadPinned(vault).Ok? && ReadPinned(vault).value.Some? ==>
              ReadPinned(vault).value.value.id == vault.pin && Pins(vault, ReadPinned(vault).value.value.sha)
    ensures ReadPinned(vault) == Err(IndexUnverified) <==> PinsNoIndex(vault)
    ensures ReadPinned(vault) == Err(InvalidInput) <==> PinsBadId(vault)
    ensures ReadPinned(vault).Err? ==> ReadPinned(vault).error in {IndexUnverified, InvalidInput, IndexInvalid}
  {
    hide IndexRows, Rowable, BadIdFirst, AllBeats;
    IndexRowsExactly(m);
    if vault.pin in vault.messages && vault.messages[vault.pin].Index? {
      IndexRowsExactly(vault.messages[vault.pin].manifest);
    }
  }

  // Bootstrap and recovery.

  /** Every tombstone of the document has a row: the one it had, or else a new one without assets. */
  ghost predicate Tombstoned(before: map<BeatId, Purge>, m: Manifest, after: map<BeatId, Purge>) {
    && (forall id :: id in after <==> id in before || (id in m.deleted && id != ""))
    && forall id <- after :: after[id] == if id in before then before[id] else Purge(LegacyTombstone, {}, None)
  }

  lemma TombstonesExactly(before: map<BeatId, Purge>, m: Manifest)
    ensures Tombstoned(before, m, WithTombstones(before, DeletedIds(m)))
  {
  }

  lemma ReadExactly(vault: Vault)
    ensures (exists d :: Pins(vault, d)) <==> ReadPinned(vault).Ok? && ReadPinned(vault).value.Some?
  {
    hide ReadPinned, Pins;
    if exists d :: Pins(vault, d) {
      var d :| Pins(vault, d);
      PinnedExactly(vault, d);
    }
    PinnedExactly(vault, NO_MANIFEST);
  }

  lemma PinsRows(vault: Vault, m: Manifest)
    requires Pins(vault, m)
    ensures IndexRows(m).Ok? && ReadPinned(vault) == Ok(Some(IndexRef(vault.pin, m)))
  {
    hide IndexRows, Rowable, AllBeats;
    IndexRowsExactly(m);
  }

  /** A vault without ledger: its pinned document becomes the ledger if no tombstone in it is empty, too long or still
      listed, and nothing happens otherwise. */
  lemma BootstrapExactly(w: World, now: Time, m: Manifest)
    requires w.ledger.index.None?
    ensures var (after, error) := Bootstrap(w, now);
            && (error.None? ==> exists d :: Pins(w.vault, d))
            && (error.Some? ==> after == w)
            && (Pins(w.vault, m) ==>
                  && (error.None? <==> forall id <- m.deleted :: 0 < |id| <= 256 && !Lists(AllBeats(m), id))
                  && (error.None? ==>
                        && IndexRows(m) == Ok(after.ledger.beats)
                        && Tombstoned(w.ledger.purges, m, after.ledger.purges)
                        && after == w.(ledger := w.ledger.(index := Some(IndexRef(w.vault.pin, m)),
                                                           beats := after.ledger.beats,
                                                           purges := after.ledger.purges))))
  {
    hide IndexRows, ReadPinned, TombstoneError, AllBeats, Pins, WithTombstones, Tombstoned, Lists;
    ReadExactly(w.vault);
    if Pins(w.vault, m) {
      PinsRows(w.vault, m);
      IndexRowsSay(m);
      NoTombstoneError(m.deleted, IndexRows(m).value);
      TombstonesExactly(w.ledger.purges, m);
    }
  }

  /** A vault with a ledger: bootstrapping it again only marks what has run out, and only while the pinned document is
      the ledger's. */
  lemma BootstrapAgain(w: World, now: Time)
    requires w.ledger.index.Some?
    ensures var (after, error) := Bootstrap(w, now);
            && (error.None? <==> w.ledger.index.value.id == w.vault.pin && Pins(w.vault, w.ledger.index.value.sha))
            && after.vault == w.vault && after.doomed == w.doomed
            && after.ledger == w.ledger.(reservations := after.ledger.reservations)
            && (if error.Some? then after == w
                else && after.ledger.reservations.Keys == w.ledger.reservations.Keys
                     && forall rid <- w.ledger.reservations ::
                          var r := w.ledger.reservations[rid];
                          after.ledger.reservations[rid]
                          == if r.state == Reserved && r.expiresAt <= now then r.(state := Expired) else r)
  {
    hide IndexRows, AllBeats, ReadPinned, Pins;
    PinnedExactly(w.vault, w.ledger.index.value.sha);
  }

  /** The ledger's document still stands in the channel, can have rows and lists no tombstone; and what is pinned has
      not a beat without a usable id for its first fault. */
  ghost predicate Recoverable(vault: Vault, doc: IndexRef) {
    && !PinsBadId(vault) && doc.id in vault.messages && vault.messages[doc.id] == Index(doc.sha)
    && Rowable(AllBeats(doc.sha)) && forall id <- doc.sha.deleted :: id != "" ==> !Lists(AllBeats(doc.sha), id)
  }

  lemma RecoverableExactly(vault: Vault, doc: IndexRef)
    ensures Recoverable(vault, doc) <==>
            && ReadPinned(vault) != Err(InvalidInput) && Holds(vault, doc) && IndexRows(doc.sha).Ok?
            && DeletedIds(doc.sha) * IndexRows(doc.sha).value.Keys == {}
  {
    hide IndexRows, ReadPinned, AllBeats, Lists, Rowable, PinsBadId;
    PinnedExactly(vault, doc.sha);
    IndexRowsExactly(doc.sha);
    if IndexRows(doc.sha).Ok? {
      IndexRowsSay(doc.sha);
      var rows := IndexRows(doc.sha).value;
      if DeletedIds(doc.sha) * rows.Keys == {} {
        forall id <- doc.sha.deleted | id != ""
          ensures id !in rows
        {
          assert id in rows ==> id in DeletedIds(doc.sha) * rows.Keys;
        }
      }
    }
  }

  /** Recovery pins the ledger's document again, with a row for each of its tombstones, and has a readable document that
      was pinned in its place deleted; dying after the pin it leaves the tables alone, and where it must not pin nothing
      changes at all. */
  lemma RecoverExactly(w: World, fault: Fault)
    requires w.ledger.index.Some?
    ensures var (after, r) := Recover(w, fault);
            var doc, replaced := w.ledger.index.value, exists d :: Pins(w.vault, d);
            var current := w.vault.pin == doc.id && doc.id != 0;
            && (r.Ok? ==> Tombstoned(w.ledger.purges, doc.sha, after.ledger.purges)
                          && after.ledger == w.ledger.(purges := after.ledger.purges))
            && after.vault.pin == (if Recoverable(w.vault, doc) then doc.id else w.vault.pin)
            && after.vault == w.vault.(pin := after.vault.pin)
            && (if !Recoverable(w.vault, doc) then r.Err? && r.error != Interrupted && after == w
                else if current then r == Ok(AlreadyCurrent) && after.doomed == w.doomed
                else if !fault.NoFault? then r == Err(Interrupted) && after == w.(vault := after.vault)
                else r == Ok(Restored)
                     && after.doomed == w.doomed + (if replaced then {w.vault.pin} else {}))
  {
    hide IndexRows, ReadPinned, AllBeats, Pins, Lists, Rowable, Recoverable, Tombstoned, WithTombstones, DeletedIds;
    var doc := w.ledger.index.value;
    PinnedExactly(w.vault, doc.sha);
    IndexRowsExactly(doc.sha);
    ReadExactly(w.vault);
    RecoverableExactly(w.vault, doc);
    PinnedIsDocument(w.vault, doc);
    TombstonesExactly(w.ledger.purges, doc.sha);
  }

  /** The document is read from the pin exactly when its message is pinned, holds it, and can be read. */
  lemma PinnedIsDocument(vault: Vault, doc: IndexRef)
    ensures ReadPinned(vault) == Ok(Some(doc))
            <==> vault.pin == doc.id && doc.id != 0 && Holds(vault, doc) && IndexRows(doc.sha).Ok?
  {
    hide IndexRows;
  }
}
