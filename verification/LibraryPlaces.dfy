/** The beat quota across reservations and publications, under limits that change from step to step. */
module LibraryPlaces {
  import opened Wrappers
  import opened LibraryIndex
  import opened LibraryQuota
  import opened LibraryPublication
  import opened LibrarySafety

  function ReservationIds(ids: set<BeatId>): set<string> {
    set id | id in ids :: ReservationId(id)
  }

  lemma {:induction false} AsManyReservations(ids: set<BeatId>)
    ensures |ReservationIds(ids)| == |ids|
  {
    if ids != {} {
      var id :| id in ids;
      AsManyReservations(ids - {id});
      forall other <- ids - {id} ensures ReservationId(other) != ReservationId(id) {
        assert ReservationId(other)[4..] == other && ReservationId(id)[4..] == id;
      }
      assert ReservationIds(ids) == ReservationIds(ids - {id}) + {ReservationId(id)};
    }
  }

  lemma LiveAfterCommit(reservations: Reservations, ids: set<BeatId>, now: Time)
    ensures LivePending(CommitReservations(reservations, ids), now)
            == LivePending(reservations, now) - ReservationIds(ids)
  {
  }

  lemma SizeOfDifference<T>(a: set<T>, b: set<T>)
    requires b <= a
    ensures |a - b| == |a| - |b|
  {
    assert a == (a - b) + b;
  }

  lemma SizesOfRows(before: Rows, rows: Rows)
    ensures |rows| == |before| - |before.Keys - rows.Keys| + |rows.Keys - before.Keys|
  {
    var both := before.Keys * rows.Keys;
    assert before.Keys == both + (before.Keys - rows.Keys);
    assert rows.Keys == both + (rows.Keys - before.Keys);
    assert |before| == |before.Keys| && |rows| == |rows.Keys|;
  }

  lemma FreshGiveUpTheirReservations(ledger: Ledger, rows: Rows, limit: Option<nat>, now: Time)
    requires CheckQuota(ledger, rows, limit, now).None?
    ensures var after := CommitReservations(ledger.reservations, Fresh(ledger, rows));
            |LivePending(after, now)| == |LivePending(ledger.reservations, now)| - |Fresh(ledger, rows)|
  {
    hide LivePending, CommitReservations, Fresh, Occupied;
    var added, live := Fresh(ledger, rows), LivePending(ledger.reservations, now);
    LiveAfterCommit(ledger.reservations, added, now);
    AsManyReservations(added);
    assert ReservationIds(added) <= live by {
      LiveOnes(ledger.reservations, now);
      assert forall q <- added :: HasReservation(ledger, q, now);
    }
    SizeOfDifference(live, ReservationIds(added));
  }

  /** A committed publication trades every fresh beat's reservation for a row, and frees the rows it purges. */
  lemma CommitConserves(ledger: Ledger, id: MsgId, m: Manifest, rows: Rows, expected: MsgId, limit: Option<nat>,
                        now: Time)
    requires CheckQuota(ledger, rows, limit, now).None?
    ensures Occupied(CommitTo(ledger, id, m, rows, expected), now) == Occupied(ledger, now) - |Removed(ledger, rows)|
  {
    hide LivePending, CommitReservations, ConfirmPurges, CheckQuota;
    FreshGiveUpTheirReservations(ledger, rows, limit, now);
    SizesOfRows(ledger.beats, rows);
  }

  lemma {:induction false} LockedConserves(w: World, p: Publication, rows: Rows, fault: Fault)
    requires IndexRows(p.manifest) == Ok(rows)
    ensures var (after, r) := PublishLocked(w, p, rows, fault);
            if r.Ok? && !r.value.same then Occupied(after.ledger, p.now) == Occupied(w.ledger, p.now) - |p.purgeIds|
            else after.ledger == w.ledger
  {
    hide IndexRows, CheckBase, CheckQuota, PurgedAssets, Removed, Fresh, CommitTo, ReadPinned, Occupied, Erase, Send,
         MayLeave,
         Purged, Clashes, DeletedIds, Untouched;
    var (after, r) := PublishLocked(w, p, rows, fault);
    if r.Ok? && !r.value.same {
      CommitConserves(w.ledger, r.value.id, p.manifest, rows, p.expected, p.limit, p.now);
    }
  }

  /** The ledger a publication starts from: without one, that of the pinned INDEX if it can be adopted. */
  ghost function Base(w: World, now: Time): Ledger {
    if w.ledger.index.None? && ReadPinned(w.vault) != Ok(None) then Bootstrap(w, now).0.ledger else w.ledger
  }

  /** Publishing conserves used + pending beats, less the beats it purges; a failed or repeated one changes nothing, but
      that a ledger may have been bootstrapped before it. */
  lemma {:induction false} PublishConserves(w: World, p: Publication, fault: Fault)
    ensures var (after, r) := Publish(w, p, fault);
            if r.Ok? && !r.value.same then Occupied(after.ledger, p.now)
                                           == Occupied(Base(w, p.now), p.now) - |p.purgeIds|
            else after.ledger == w.ledger || after.ledger == Base(w, p.now)
  {
    hide IndexRows, PublishLocked, ReadPinned, Bootstrap, Occupied;
    if IndexRows(p.manifest).Ok? {
      var rows := IndexRows(p.manifest).value;
      LockedConserves(w, p, rows, fault);
      LockedConserves(Bootstrap(w, p.now).0, p, rows, fault);
    }
  }

  /** The limit in force at a step and its time, for the steps that can take places. */
  ghost function LimitOf(s: Step): (Option<nat>, Time)
    requires s.DoReserve? || s.DoPublish? || s.DoRenew? || s.DoCancel?
  {
    match s
    case DoReserve(_, _, _, limit, now) => (limit, now)
    case DoPublish(p, _) => (p.limit, p.now)
    case DoRenew(_, now) => (Some(0), now)
    case DoCancel(_, now) => (Some(0), now)
  }

  ghost function LedgerBefore(w: World, s: Step): Ledger {
    if s.DoPublish? then Base(w, s.p.now) else w.ledger
  }

  /** No reservation, renewal, cancellation or publication takes places beyond the limit in force, whatever limits
      applied before; a library at or over its limit never grows. What a bootstrap adopts counts as being there
      before. */
  lemma NeverGrowsPastTheLimit(w: World, s: Step)
    requires s.DoReserve? || s.DoPublish? || s.DoRenew? || s.DoCancel?
    ensures var (limit, now) := LimitOf(s);
            var before, after := LedgerBefore(w, s), Apply(w, s).ledger;
            after == w.ledger
            || (Bounded(before, after, limit, now)
                && (Full(Occupied(before, now), limit) ==> Occupied(after, now) <= Occupied(before, now)))
  {
    hide Publish, Reserve, Renew, Cancel, LivePending;
    match s
    case DoReserve(beat, rid, retryDenied, limit, now) => ReserveIsBounded(w.ledger, beat, rid, retryDenied, limit,
                                                                           now);
    case DoPublish(p, fault) => PublishConserves(w, p, fault);
    case DoRenew(rid, now) => RenewTakesNoPlace(w.ledger, rid, now);
    case DoCancel(rid, now) =>
      CancelFreesItsPlace(w.ledger, rid, now);
      SubsetIsSmaller(LivePending(Cancel(w.ledger, rid, now).0.reservations, now),
                      LivePending(w.ledger.reservations, now));
  }
}
