/** What gets a document committed: when publishing succeeds, and that a place granted before is enough for a beat. */
module LibraryGrowth {
  import opened Wrappers
  import opened LibraryIndex
  import opened LibraryQuota
  import opened LibraryPublication
  import opened LibraryRecovery
  import opened LibrarySafety
  import opened LibraryRuns
  import opened LibraryRetry

  // The contents.

  /** The document drops exactly the beats to purge, all of them waiting for it, and tombstones just those; it lists no
      beat that is gone for good; and every beat that waits in Trash for its purge is still there as it was, beside
      well-formed beats that share nothing with it. */
  ghost predicate Follows(ledger: Ledger, sha: Manifest, m: Manifest, rows: Rows, purgeIds: set<BeatId>) {
    && ledger.beats.Keys - rows.Keys == purgeIds && DeletedIds(m) == DeletedIds(sha) + purgeIds
    && (forall id <- purgeIds :: id in ledger.purges && ledger.purges[id].state == Pending)
    && (forall id <- rows :: id in ledger.purges ==> ledger.purges[id].state == Pending)
    && forall id <- ledger.purges | ledger.purges[id].state == Pending ::
         && (id !in purgeIds ==> id in rows && rows[id] == Trash && BeatOf(m, id) == BeatOf(sha, id))
         && forall b <- AllBeats(m) :: b.id != id ==> WellFormed(b) && Messages(b) !! ledger.purges[id].assets
  }

  lemma Apart(a: set<MsgId>, b: set<MsgId>)
    ensures a * b == {} <==> a !! b
  {
    if a * b == {} {
      forall x <- a ensures x !in b {
        assert x in b ==> x in a * b;
      }
    } else {
      var x :| x in a * b;
    }
  }

  lemma PendingUnshared(ledger: Ledger, sha: Manifest, m: Manifest, id: BeatId)
    requires PendingOk(ledger, sha, id)
    ensures !Clashes(m, id, ledger.purges[id].assets) <==>
            forall b <- AllBeats(m) :: b.id != id ==> WellFormed(b) && Messages(b) !! ledger.purges[id].assets
  {
    hide BeatOf, AllBeats, Verifiable, WellFormed, Messages;
    var assets := ledger.purges[id].assets;
    assert assets != {};
    forall b <- AllBeats(m)
      ensures Messages(b) * assets == {} <==> Messages(b) !! assets
    {
      Apart(Messages(b), assets);
    }
  }

  lemma FollowingPasses(ledger: Ledger, sha: Manifest, m: Manifest, rows: Rows, purgeIds: set<BeatId>)
    requires LedgerOk(ledger, sha) && Follows(ledger, sha, m, rows, purgeIds)
    ensures CheckContents(ledger, sha, m, rows, purgeIds).None?
  {
    hide IndexRows, BeatOf, AllBeats, Verifiable, WellFormed, Messages, Clashes, DeletedIds;
    forall id <- ledger.purges | IsPending(ledger, id)
      ensures PendingOk(ledger, sha, id) && !Clashes(m, id, ledger.purges[id].assets)
    {
      assert PendingOk(ledger, sha, id);
      PendingUnshared(ledger, sha, m, id);
    }
  }

  lemma PassingFollows(ledger: Ledger, sha: Manifest, m: Manifest, rows: Rows, purgeIds: set<BeatId>)
    requires LedgerOk(ledger, sha) && CheckContents(ledger, sha, m, rows, purgeIds).None?
    ensures Follows(ledger, sha, m, rows, purgeIds)
  {
    hide IndexRows, BeatOf, AllBeats, Verifiable, WellFormed, Messages, Clashes, DeletedIds;
    assert forall id <- Removed(ledger, rows) :: MayLeave(ledger, sha, m, id);
    forall id <- ledger.purges | IsPending(ledger, id)
      ensures forall b <- AllBeats(m) :: b.id != id ==> WellFormed(b) && Messages(b) !! ledger.purges[id].assets
      ensures id !in purgeIds ==> Untouched(sha, m, rows, id)
    {
      assert PendingOk(ledger, sha, id);
      PendingUnshared(ledger, sha, m, id);
    }
    assert forall id <- rows :: !Purged(ledger, sha, id);
  }

  /** Beside a ledger that mirrors its document, the seven checks of a publication come to that. */
  lemma ContentsExactly(ledger: Ledger, sha: Manifest, m: Manifest, rows: Rows, purgeIds: set<BeatId>)
    requires LedgerOk(ledger, sha)
    ensures CheckContents(ledger, sha, m, rows, purgeIds).None? <==> Follows(ledger, sha, m, rows, purgeIds)
  {
    hide LedgerOk, CheckContents, Follows;
    if CheckContents(ledger, sha, m, rows, purgeIds).None? {
      PassingFollows(ledger, sha, m, rows, purgeIds);
    }
    if Follows(ledger, sha, m, rows, purgeIds) {
      FollowingPasses(ledger, sha, m, rows, purgeIds);
    }
  }

  // The whole call.

  /** A base passes when the call names the ledger's document, that document still stands in the channel, and it is the
      one pinned or what is pinned is already a copy of the new one; without a ledger, when nothing is pinned, the call
      names nothing and the document lists nothing. */
  lemma BaseExactly(w: World, p: Publication, rows: Rows)
    requires ReadPinned(w.vault).Ok?
    ensures CheckBase(w, ReadPinned(w.vault).value, p, rows).None? <==>
            if w.ledger.index.Some? then
              var base := w.ledger.index.value;
              && p.expected == base.id && base.id in w.vault.messages && w.vault.messages[base.id] == Index(base.sha)
              && ((w.vault.pin == base.id && base.id != 0) || Pins(w.vault, p.manifest))
            else p.expected == 0 && w.vault.pin == 0 && rows == map[]
  {
    hide IndexRows, Rowable, AllBeats, ReadPinned;
    PinnedExactly(w.vault, p.manifest);
    if w.ledger.index.Some? {
      PinnedExactly(w.vault, w.ledger.index.value.sha);
    }
  }

  lemma PinnedBase(w: World, p: Publication, rows: Rows)
    requires Invariant(w) && w.ledger.index.Some? && ReadPinned(w.vault).Ok?
    requires CheckBase(w, ReadPinned(w.vault).value, p, rows).None?
    ensures PinnedHere(w, p) && p.expected == w.ledger.index.value.id
  {
    hide IndexRows, Rowable, AllBeats, ReadPinned, LedgerOk, PinOk, DocumentsNameAssets;
    PinnedExactly(w.vault, p.manifest);
    PinnedExactly(w.vault, w.ledger.index.value.sha);
    BaseExactly(w, p, rows);
  }

  lemma SameExactly(w: World, m: Manifest)
    requires Invariant(w) && w.ledger.index.Some? && ReadPinned(w.vault).Ok?
    ensures IsSame(w.ledger, ReadPinned(w.vault).value, m)
            <==> w.vault.pin == w.ledger.index.value.id && m == w.ledger.index.value.sha
  {
    hide Pins, ReadPinned, LedgerOk, PinOk, DocumentsNameAssets;
    PinnedExactly(w.vault, m);
  }

  lemma StandingBase(w: World, p: Publication, rows: Rows)
    requires Invariant(w) && w.ledger.index.Some? && ReadPinned(w.vault).Ok?
    ensures CheckBase(w, ReadPinned(w.vault).value, p, rows).None? <==>
            p.expected == w.ledger.index.value.id
            && (w.vault.pin == w.ledger.index.value.id || Pins(w.vault, p.manifest))
  {
    hide Pins, ReadPinned, LedgerOk, PinOk, DocumentsNameAssets;
    BaseExactly(w, p, rows);
  }

  /** Over a committed document, a publication that is not interrupted commits if and only if it names that document as
      its base, differs from it while that is the one pinned or is itself what is pinned already, follows it in its
      contents and finds room for every new beat; otherwise it changes neither ledger nor channel. Publishing the pinned
      document again succeeds without a change. */
  lemma PublishExactly(w: World, p: Publication, rows: Rows)
    requires Invariant(w) && w.ledger.index.Some?
    requires AssetMessages(w.vault, Assets(p.manifest)) && IndexRows(p.manifest) == Ok(rows)
    ensures var (after, r) := Publish(w, p, NoFault);
            var base := w.ledger.index.value;
            && (LibraryRetry.Committed(r)
                <==> p.expected == base.id
                     && (if w.vault.pin == base.id then p.manifest != base.sha else Pins(w.vault, p.manifest))
                     && Follows(w.ledger, base.sha, p.manifest, rows, p.purgeIds)
                     && RoomFor(w.ledger, rows, p.limit, p.now))
            && (if LibraryRetry.Committed(r) then CommittedHere(w, p, rows, after)
                else after.ledger == w.ledger && after.vault == w.vault)
            && (r.Ok? && !LibraryRetry.Committed(r) <==> w.vault.pin == base.id && p.manifest == base.sha)
  {
    hide IndexRows, Invariant, ReadPinned, AssetMessages, Assets, CheckContents, CheckQuota, Execute, Follows, RoomFor,
         CommittedHere, LedgerOk, CheckBase, PinnedHere, IsSame, Pins;
    MirrorsItsDocument(w);
    ContentsExactly(w.ledger, w.ledger.index.value.sha, p.manifest, rows, p.purgeIds);
    QuotaExactly(w.ledger, rows, p.limit, p.now);
    var read := ReadPinned(w.vault);
    if read.Ok? {
      StandingBase(w, p, rows);
      SameExactly(w, p.manifest);
      Commits(w, read.value, p, rows);
      if CheckBase(w, read.value, p, rows).None? {
        PinnedBase(w, p, rows);
        if CheckContents(w.ledger, Before(w.ledger), p.manifest, rows, p.purgeIds).None? {
          ExecutedHere(w, read.value, p, rows);
        }
      }
    } else {
      UnreadPin(w, p.manifest);
    }
  }

  lemma UnreadPin(w: World, m: Manifest)
    requires Invariant(w) && w.ledger.index.Some? && ReadPinned(w.vault).Err?
    ensures w.vault.pin != w.ledger.index.value.id && !Pins(w.vault, m)
  {
    hide IndexRows, Rowable, AllBeats, LedgerOk, DocumentsNameAssets;
    PinnedExactly(w.vault, m);
  }

  lemma MirrorsItsDocument(w: World)
    requires Invariant(w) && w.ledger.index.Some?
    ensures LedgerOk(w.ledger, w.ledger.index.value.sha)
  {
    hide VaultOk, PinOk, Holds, LedgerOk;
  }

  /** The first document: an empty one without tombstones, in a vault that still waits for it. It is sent, pinned and
      becomes the ledger; where it may not, nothing happens. */
  lemma FirstPublishExactly(w: World, p: Publication, rows: Rows)
    requires Invariant(w) && w.ledger.index.None? && w.vault.pin == 0
    requires AssetMessages(w.vault, Assets(p.manifest)) && IndexRows(p.manifest) == Ok(rows)
    ensures var (after, r) := Publish(w, p, NoFault);
            var id := w.vault.next;
            && (r.Ok? <==> && w.ledger.bootstrapPending && w.ledger.pointer.None?
                           && p.expected == 0 && p.purgeIds == {} && AllBeats(p.manifest) == []
                           && forall d <- p.manifest.deleted :: d == "")
            && (if r.Err? then after == w
                else && r == Ok(Published(id, 0, false)) && after.doomed == w.doomed
                     && after.vault == Vault(w.vault.messages[id := Index(p.manifest)], id, id + 1)
                     && after.ledger == w.ledger.(index := Some(IndexRef(id, p.manifest)), bootstrapPending := false,
                                                  pointer := Some(Pointer(id, 0, 1))))
  {
    hide IndexRows, Invariant, Assets, AssetMessages, CheckBase, CheckContents, CheckQuota, Execute, First, Passes;
    FirstExactly(w, p, rows);
    FirstInFields(w, p, rows);
    FirstPublishes(w, p, rows);
    if First(w, p) {
      FirstCommits(w, p);
    }
  }

  lemma FirstPublishes(w: World, p: Publication, rows: Rows)
    requires w.ledger.index.None? && w.vault.pin == 0 && IndexRows(p.manifest) == Ok(rows)
    ensures if Passes(w, None, p, rows) then Publish(w, p, NoFault) == Execute(w, None, p, rows, NoFault)
            else Publish(w, p, NoFault).1.Err? && Publish(w, p, NoFault).0 == w
  {
    hide IndexRows, CheckBase, CheckContents, CheckQuota, Execute;
  }

  lemma FirstInFields(w: World, p: Publication, rows: Rows)
    requires Invariant(w) && w.ledger.index.None? && IndexRows(p.manifest) == Ok(rows)
    ensures First(w, p) <==>
            && w.ledger.bootstrapPending && w.ledger.pointer.None? && p.expected == 0 && p.purgeIds == {}
            && AllBeats(p.manifest) == [] && forall d <- p.manifest.deleted :: d == ""
    ensures First(w, p) ==> rows == map[]
  {
    hide IndexRows, VaultOk;
    IndexRowsSay(p.manifest);
    if AllBeats(p.manifest) != [] {
      assert Lists(AllBeats(p.manifest), AllBeats(p.manifest)[0].id);
    } else {
      assert forall id :: id !in rows;
    }
    assert DeletedIds(p.manifest) == {} <==> forall d <- p.manifest.deleted :: d == "" by {
      assert forall d <- p.manifest.deleted :: d != "" ==> d in DeletedIds(p.manifest);
    }
  }

  lemma FirstCommits(w: World, p: Publication)
    requires First(w, p)
    ensures var (after, r) := Execute(w, None, p, map[], NoFault);
            var id := w.vault.next;
            && r == Ok(Published(id, 0, false)) && after.doomed == w.doomed
            && after.vault == Vault(w.vault.messages[id := Index(p.manifest)], id, id + 1)
            && after.ledger == w.ledger.(index := Some(IndexRef(id, p.manifest)), bootstrapPending := false,
                                         pointer := Some(Pointer(id, 0, 1)))
  {
    hide IndexRows;
    var none: Rows := map[];
    assert Removed(w.ledger, none) == {} && Fresh(w.ledger, none) == {} && PurgedAssets(w.ledger, {}) == {};
    assert Erase(w.vault, {}) == w.vault && w.doomed + {} == w.doomed;
    assert ConfirmPurges(w.ledger.purges, {}) == w.ledger.purges;
    assert CommitReservations(w.ledger.reservations, {}) == w.ledger.reservations;
  }

  // From the grant to the commit.

  /** Other clients' reservations, renewals and cancellations, under one limit and one after the other. */
  ghost predicate Quotas(steps: seq<Step>, rid: string, limit: Option<nat>, from: Time, to: Time) {
    && (forall s <- steps :: && (s.DoReserve? || s.DoRenew? || s.DoCancel?) && from <= s.now <= to
                             && (s.DoReserve? ==> s.limit == limit) && (s.DoCancel? ==> s.rid != rid))
    && forall i, j | 0 <= i < j < |steps| :: steps[i].now <= steps[j].now
  }

  /** The reservation stands until `end` at least, and no more places are taken than the limit allows. */
  ghost predicate Standing(ledger: Ledger, rid: string, beat: BeatId, limit: Option<nat>, end: Time, now: Time) {
    && rid in ledger.reservations && ledger.reservations[rid].state == Reserved
    && ledger.reservations[rid].beat == beat && end <= ledger.reservations[rid].expiresAt
    && (limit.Some? ==> Taken(ledger, now) <= limit.value)
  }

  lemma ReserveStands(ledger: Ledger, s: Step, rid: string, beat: BeatId, limit: Option<nat>, end: Time, now: Time)
    requires Standing(ledger, rid, beat, limit, end, now)
    requires s.DoReserve? && s.limit == limit && now <= s.now < end
    ensures Standing(Reserve(ledger, s.beat, s.rid, s.retryDenied, s.limit, s.now).0, rid, beat, limit, end, s.now)
  {
    hide Reserve, Taken, Occupied, ValidId;
    var after := Reserve(ledger, s.beat, s.rid, s.retryDenied, s.limit, s.now).0;
    TimeFreesPlaces(ledger, now, s.now);
    TakenIsOccupied(ledger, now);
    TakenIsOccupied(ledger, s.now);
    TakenIsOccupied(after, s.now);
    ReserveIsBounded(ledger, s.beat, s.rid, s.retryDenied, s.limit, s.now);
    ReserveExactly(ledger, s.beat, s.rid, s.retryDenied, s.limit, s.now);
  }

  lemma RenewStands(ledger: Ledger, s: Step, rid: string, beat: BeatId, limit: Option<nat>, end: Time, now: Time)
    requires Standing(ledger, rid, beat, limit, end, now)
    requires s.DoRenew? && now <= s.now < end <= s.now + RESERVATION_TTL_MS
    ensures Standing(Renew(ledger, s.rid, s.now).0, rid, beat, limit, end, s.now)
  {
    hide Taken, Occupied, ValidId;
    TimeFreesPlaces(ledger, now, s.now);
    TakenIsOccupied(ledger, now);
    TakenIsOccupied(Renew(ledger, s.rid, s.now).0, s.now);
    RenewTakesNoPlace(ledger, s.rid, s.now);
  }

  lemma CancelLeavesRow(ledger: Ledger, other: string, rid: string, now: Time)
    requires rid in ledger.reservations && ledger.reservations[rid].state == Reserved && other != rid
    requires now < ledger.reservations[rid].expiresAt
    ensures var after := Cancel(ledger, other, now).0;
            rid in after.reservations && after.reservations[rid] == ledger.reservations[rid]
  {
  }

  lemma CancelTakesNoMore(ledger: Ledger, rid: string, now: Time)
    ensures Taken(Cancel(ledger, rid, now).0, now) <= Taken(ledger, now)
  {
    hide Taken, LivePending, Cancel;
    var after := Cancel(ledger, rid, now).0;
    TakenIsOccupied(ledger, now);
    TakenIsOccupied(after, now);
    CancelFreesItsPlace(ledger, rid, now);
    SubsetIsSmaller(LivePending(after.reservations, now), LivePending(ledger.reservations, now));
  }

  lemma CancelStands(ledger: Ledger, s: Step, rid: string, beat: BeatId, limit: Option<nat>, end: Time, now: Time)
    requires Standing(ledger, rid, beat, limit, end, now)
    requires s.DoCancel? && s.rid != rid && now <= s.now < end
    ensures Standing(Cancel(ledger, s.rid, s.now).0, rid, beat, limit, end, s.now)
  {
    hide Taken, Cancel;
    TimeFreesPlaces(ledger, now, s.now);
    TakenIsOccupied(ledger, now);
    TakenIsOccupied(ledger, s.now);
    CancelTakesNoMore(ledger, s.rid, s.now);
    CancelLeavesRow(ledger, s.rid, rid, s.now);
  }

  /** The time of the last of these steps. */
  ghost function LastTime(steps: seq<Step>, from: Time): Time {
    if steps == [] then from
    else
      match steps[|steps| - 1]
      case DoReserve(_, _, _, _, now) => now
      case DoRenew(_, now) => now
      case DoCancel(_, now) => now
      case _ => from
  }

  lemma StepStands(v: World, s: Step, rid: string, beat: BeatId, limit: Option<nat>, end: Time, now: Time)
    requires Standing(v.ledger, rid, beat, limit, end, now) && (s.DoReserve? || s.DoRenew? || s.DoCancel?)
    requires now <= s.now < end <= s.now + RESERVATION_TTL_MS
    requires (s.DoReserve? ==> s.limit == limit) && (s.DoCancel? ==> s.rid != rid)
    ensures var after := Apply(v, s);
            && after == v.(ledger := v.ledger.(reservations := after.ledger.reservations))
            && Standing(after.ledger, rid, beat, limit, end, s.now)
  {
    hide Standing, Reserve, Renew, Cancel;
    OnlyReservations(v.ledger, s);
    match s
    case DoReserve(_, _, _, _, _) => ReserveStands(v.ledger, s, rid, beat, limit, end, now);
    case DoRenew(_, _) => RenewStands(v.ledger, s, rid, beat, limit, end, now);
    case DoCancel(_, _) => CancelStands(v.ledger, s, rid, beat, limit, end, now);
  }

  lemma {:induction false} GrantStands(w: World, steps: seq<Step>, rid: string, beat: BeatId, limit: Option<nat>,
                                       end: Time, from: Time, to: Time)
    requires Standing(w.ledger, rid, beat, limit, end, from) && Quotas(steps, rid, limit, from, to)
    requires from <= to < end <= from + RESERVATION_TTL_MS
    ensures var v := Run(w, steps);
            && v == w.(ledger := w.ledger.(reservations := v.ledger.reservations))
            && from <= LastTime(steps, from) <= to && Standing(v.ledger, rid, beat, limit, end, LastTime(steps, from))
  {
    if steps != [] {
      hide Standing, Apply;
      var before, s := steps[..|steps| - 1], steps[|steps| - 1];
      assert s in steps && (before != [] ==> before[|before| - 1] in steps);
      assert forall b <- before :: b in steps;
      GrantStands(w, before, rid, beat, limit, end, from, to);
      StepStands(Run(w, before), s, rid, beat, limit, end, LastTime(before, from));
    }
  }

  lemma OnlyReservations(ledger: Ledger, s: Step)
    ensures s.DoReserve? ==> var after := Reserve(ledger, s.beat, s.rid, s.retryDenied, s.limit, s.now).0;
                             after == ledger.(reservations := after.reservations)
    ensures s.DoRenew? ==> var after := Renew(ledger, s.rid, s.now).0;
                           after == ledger.(reservations := after.reservations)
    ensures s.DoCancel? ==> var after := Cancel(ledger, s.rid, s.now).0;
                            after == ledger.(reservations := after.reservations)
  {
    hide Expire, BeatHeld, Occupied;
  }

  lemma GrantIsStanding(ledger: Ledger, beat: BeatId, rid: string, retryDenied: bool, limit: Option<nat>, now: Time)
    requires !Waits(ledger.reservations, rid, now)
    requires Reserve(ledger, beat, rid, retryDenied, limit, now).1 == Ok(Reserved)
    ensures Standing(Reserve(ledger, beat, rid, retryDenied, limit, now).0, rid, beat, limit, now + RESERVATION_TTL_MS,
                     now)
    ensures beat !in ledger.beats && (limit.Some? ==> |ledger.beats| < limit.value)
  {
    hide Reserve, Occupied, ValidId;
    var after := Reserve(ledger, beat, rid, retryDenied, limit, now).0;
    ReserveExactly(ledger, beat, rid, retryDenied, limit, now);
    ReserveIsBounded(ledger, beat, rid, retryDenied, limit, now);
    TakenIsOccupied(ledger, now);
    TakenIsOccupied(after, now);
  }

  lemma StandingIsPublished(w: World, v: World, beat: BeatId, limit: Option<nat>, end: Time, now: Time, m: Manifest,
                            rows: Rows, later: Time)
    requires Invariant(w) && w.ledger.index.Some? && ReadPinned(w.vault) == Ok(w.ledger.index)
    requires v == w.(ledger := w.ledger.(reservations := v.ledger.reservations))
    requires Standing(v.ledger, "new:" + beat, beat, limit, end, now) && now <= later < end
    requires beat !in w.ledger.beats && (limit.Some? ==> |w.ledger.beats| < limit.value)
    requires AssetMessages(w.vault, Assets(m)) && IndexRows(m) == Ok(rows)
    requires rows.Keys == w.ledger.beats.Keys + {beat} && Follows(w.ledger, w.ledger.index.value.sha, m, rows, {})
    ensures var (after, r) := Publish(v, Publication(m, w.ledger.index.value.id, {}, limit, later), NoFault);
            && LibraryRetry.Committed(r) && after.ledger.beats == rows
            && after.ledger.index == Some(IndexRef(after.vault.pin, m))
  {
    hide IndexRows, Invariant, ReadPinned, AssetMessages, Assets, Publish, Standing, RoomFor, Follows, Holds,
         PurgedAssets, ConfirmPurges, CommitReservations, LedgerOk;
    PinnedIsDocument(w.vault, w.ledger.index.value);
    ReservationsKeep(w, v.ledger);
    StandingIsRoom(v.ledger, rows, beat, limit, end, now, later);
    SameFollows(w.ledger, v.ledger, w.ledger.index.value.sha, m, rows);
    MirrorsItsDocument(w);
    BeatAdded(w.ledger, m, rows, beat);
    PublishExactly(v, Publication(m, w.ledger.index.value.id, {}, limit, later), rows);
  }

  /** A place granted to a beat is enough: published before the reservation's term is over and under the limit of the
      grant, the document that adds just this beat is committed, whatever other clients reserve, renew and cancel under
      that limit in between. */
  lemma GrantedBeatIsPublished(w: World, beat: BeatId, retryDenied: bool, limit: Option<nat>, now: Time,
                               steps: seq<Step>, m: Manifest, rows: Rows, later: Time)
    requires Invariant(w) && w.ledger.index.Some? && ReadPinned(w.vault) == Ok(w.ledger.index)
    requires !Waits(w.ledger.reservations, "new:" + beat, now)
    requires Reserve(w.ledger, beat, "new:" + beat, retryDenied, limit, now).1 == Ok(Reserved)
    requires Quotas(steps, "new:" + beat, limit, now, later) && now <= later < now + RESERVATION_TTL_MS
    requires AssetMessages(w.vault, Assets(m)) && IndexRows(m) == Ok(rows)
    requires rows.Keys == w.ledger.beats.Keys + {beat} && Follows(w.ledger, w.ledger.index.value.sha, m, rows, {})
    ensures var granted := w.(ledger := Reserve(w.ledger, beat, "new:" + beat, retryDenied, limit, now).0);
            var (after, r) := Publish(Run(granted, steps), Publication(m, w.ledger.index.value.id, {}, limit, later),
                                      NoFault);
            && LibraryRetry.Committed(r) && after.ledger.beats == rows
            && after.ledger.index == Some(IndexRef(after.vault.pin, m))
  {
    hide IndexRows, Invariant, ReadPinned, AssetMessages, Assets, Publish, Standing, Reserve, Run, Quotas, LastTime,
         Follows, Waits;
    var rid := "new:" + beat;
    var granted := w.(ledger := Reserve(w.ledger, beat, rid, retryDenied, limit, now).0);
    OnlyReservations(w.ledger, DoReserve(beat, rid, retryDenied, limit, now));
    GrantIsStanding(w.ledger, beat, rid, retryDenied, limit, now);
    GrantStands(granted, steps, rid, beat, limit, now + RESERVATION_TTL_MS, now, later);
    StandingIsPublished(w, Run(granted, steps), beat, limit, now + RESERVATION_TTL_MS, LastTime(steps, now), m, rows,
                        later);
  }

  lemma SameFollows(before: Ledger, after: Ledger, sha: Manifest, m: Manifest, rows: Rows)
    requires Follows(before, sha, m, rows, {}) && after == before.(reservations := after.reservations)
    ensures Follows(after, sha, m, rows, {})
  {
    hide BeatOf, AllBeats, WellFormed, Messages, DeletedIds;
  }

  lemma BeatAdded(ledger: Ledger, m: Manifest, rows: Rows, beat: BeatId)
    requires ledger.index.Some? && IndexRows(m) == Ok(rows) && rows.Keys == ledger.beats.Keys + {beat}
    requires beat !in ledger.beats && LedgerOk(ledger, ledger.index.value.sha)
    ensures m != ledger.index.value.sha
  {
    hide IndexRows;
    assert beat in rows;
  }

  lemma StandingIsRoom(ledger: Ledger, rows: Rows, beat: BeatId, limit: Option<nat>, end: Time, now: Time, later: Time)
    requires Standing(ledger, "new:" + beat, beat, limit, end, now) && now <= later < end
    requires rows.Keys == ledger.beats.Keys + {beat} && beat !in ledger.beats
    requires limit.Some? ==> |ledger.beats| < limit.value
    ensures RoomFor(ledger, rows, limit, later)
  {
    hide Taken, Occupied;
    assert rows.Keys - ledger.beats.Keys == {beat};
    TimeFreesPlaces(ledger, now, later);
    TakenIsOccupied(ledger, now);
    TakenIsOccupied(ledger, later);
    assert |ledger.beats.Keys| == |ledger.beats|;
  }
}
