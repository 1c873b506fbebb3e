/** Reservations: places in the library held for beats that are not in the INDEX yet. */
module LibraryQuota {
  import opened Wrappers
  import opened LibraryIndex

  type Reservations = map<string, Reservation>

  const RESERVATION_TTL_MS := 15 * 60000

  predicate Live(r: Reservation, now: Time) {
    r.state == Reserved && r.expiresAt > now
  }

  /** Reservations that still hold a place at `now`. */
  function LivePending(reservations: Reservations, now: Time): set<string> {
    set rid | rid in reservations && Live(reservations[rid], now)
  }

  function Occupied(ledger: Ledger, now: Time): nat {
    |ledger.beats| + |LivePending(ledger.reservations, now)|
  }

  predicate Full(occupied: nat, limit: Option<nat>) {
    limit.Some? && occupied >= limit.value
  }

  function Expire(reservations: Reservations, now: Time): Reservations {
    map rid | rid in reservations ::
      if reservations[rid].state == Reserved && reservations[rid].expiresAt <= now
         then reservations[rid].(state := Expired)
      else reservations[rid]
  }

  function Expiring(ledger: Ledger, now: Time): Ledger {
    ledger.(reservations := Expire(ledger.reservations, now))
  }

  predicate BeatHeld(reservations: Reservations, beat: BeatId) {
    exists rid <- reservations :: reservations[rid].state == Reserved && reservations[rid].beat == beat
  }

  /** A refusal for lack of room is committed as a DENIED row before it is reported. */
  function Reserve(ledger: Ledger, beat: BeatId, rid: string, retryDenied: bool, limit: Option<nat>,
                   now: Time): (Ledger, Result<ReservationState, Error>) {
    var after := Expiring(ledger, now);
    if !ValidId(beat) || !ValidId(rid) then (ledger, Err(InvalidInput))
    else if ledger.index.None? then (ledger, Err(Uninitialized))
    else if beat in ledger.purges then (ledger, Err(PurgeTombstone))
    else if rid in after.reservations && after.reservations[rid].beat != beat then (ledger, Err(IdentityConflict))
    else if rid in after.reservations && after.reservations[rid].state == Denied
         && !retryDenied then (after, Err(Exceeded))
    else if rid in after.reservations && after.reservations[rid].state in {Reserved, Committed}
            then (after, Ok(after.reservations[rid].state))
    else if beat in ledger.beats then (ledger, Err(BeatExists))
    else if BeatHeld(after.reservations, beat) then (ledger, Err(BeatReserved))
    else if Full(Occupied(after, now), limit) then
      (after.(reservations := after.reservations[rid := Reservation(beat, Denied, now)]), Err(Exceeded))
    else (after.(reservations := after.reservations[rid := Reservation(beat, Reserved, now + RESERVATION_TTL_MS)]),
          Ok(Reserved))
  }

  function Renew(ledger: Ledger, rid: string, now: Time): (Ledger, Result<ReservationState, Error>) {
    var after := Expiring(ledger, now);
    if !ValidId(rid) then (ledger, Err(InvalidInput))
    else if ledger.index.None? then (ledger, Err(Uninitialized))
    else if rid !in after.reservations || after.reservations[rid].state != Reserved
            then (ledger, Err(ReservationClosed))
    else
      var renewed := after.reservations[rid].(expiresAt := now + RESERVATION_TTL_MS);
      (after.(reservations := after.reservations[rid := renewed]), Ok(Reserved))
  }

  function Cancel(ledger: Ledger, rid: string, now: Time): (Ledger, Result<ReservationState, Error>) {
    var after := Expiring(ledger, now);
    if !ValidId(rid) then (ledger, Err(InvalidInput))
    else if ledger.index.None? then (ledger, Err(Uninitialized))
    else if rid !in after.reservations then (ledger, Err(ReservationNotFound))
    else if after.reservations[rid].state == Committed then (ledger, Err(ReservationClosed))
    else if after.reservations[rid].state == Reserved
    then (after.(reservations := after.reservations[rid := after.reservations[rid].(state := Canceled)]), Ok(Canceled))
    else (after, Ok(after.reservations[rid].state))
  }

  // What a reservation operation can change.

  lemma ExpireHidesNothing(reservations: Reservations, now: Time)
    ensures LivePending(Expire(reservations, now), now) == LivePending(reservations, now)
    ensures forall rid <- Expire(reservations, now) ::
              && (Expire(reservations, now)[rid].state == Reserved <==> Live(reservations[rid], now))
              && (Expire(reservations, now)[rid].state == Reserved <==> Live(Expire(reservations, now)[rid], now))
  {
  }

  lemma LiveAfterUpdate(reservations: Reservations, rid: string, r: Reservation, now: Time)
    ensures LivePending(reservations[rid := r], now)
         == if Live(r, now) then LivePending(reservations, now) + {rid} else LivePending(reservations, now) - {rid}
  {
    hide Live;
  }

  lemma CountAfterUpdate(reservations: Reservations, rid: string, r: Reservation, now: Time)
    ensures var before, after := |LivePending(reservations, now)|, |LivePending(reservations[rid := r], now)|;
            if rid in reservations && Live(reservations[rid], now) then after
                                                                        == (if Live(r, now) then before else before - 1)
            else after == (if Live(r, now) then before + 1 else before)
  {
    hide Live;
    var live := LivePending(reservations, now);
    LiveAfterUpdate(reservations, rid, r, now);
    if rid in live {
      assert live == (live - {rid}) + {rid};
    } else {
      assert live - {rid} == live;
    }
  }

  /** No step leaves more places taken than the limit in force, unless that many were taken before it. */
  ghost predicate Bounded(before: Ledger, after: Ledger, limit: Option<nat>, now: Time) {
    Occupied(after, now) <= Occupied(before, now) || (limit.Some? ==> Occupied(after, now) <= limit.value)
  }

  lemma PlaceCounts(ledger: Ledger, rid: string, r: Reservation, now: Time)
    requires !(rid in Expire(ledger.reservations, now) && Expire(ledger.reservations, now)[rid].state == Reserved)
    ensures var after := Expiring(ledger, now);
            && Occupied(after, now) == Occupied(ledger, now)
            && Occupied(after.(reservations := after.reservations[rid := r]), now)
               == Occupied(ledger, now) + if Live(r, now) then 1 else 0
  {
    hide LivePending, Expire;
    ExpireHidesNothing(ledger.reservations, now);
    CountAfterUpdate(Expire(ledger.reservations, now), rid, r, now);
  }

  /** A reservation takes a place only below the limit: exactly one when granted anew, none when refused. */
  lemma ReserveIsBounded(ledger: Ledger, beat: BeatId, rid: string, retryDenied: bool, limit: Option<nat>, now: Time)
    ensures var (after, r) := Reserve(ledger, beat, rid, retryDenied, limit, now);
            && Bounded(ledger, after, limit, now)
            && after.beats == ledger.beats && after.purges == ledger.purges && after.index == ledger.index
            && (r.Err? ==> Occupied(after, now) <= Occupied(ledger, now))
            && (Full(Occupied(ledger, now), limit) ==> Occupied(after, now) <= Occupied(ledger, now))
            && (beat in ledger.purges ==> r.Err?)
            && (r == Ok(Reserved) ==> rid in after.reservations && after.reservations[rid].beat == beat
                                      && Live(after.reservations[rid], now))
  {
    hide Occupied, Expire, ValidId, BeatHeld;
    ExpireHidesNothing(ledger.reservations, now);
    OccupiedWhileExpiring(ledger, now);
    var expired := Expire(ledger.reservations, now);
    if !(rid in expired && expired[rid].state == Reserved) {
      PlaceCounts(ledger, rid, Reservation(beat, Denied, now), now);
      PlaceCounts(ledger, rid, Reservation(beat, Reserved, now + RESERVATION_TTL_MS), now);
    }
  }

  /** The row holds a place at `now`, in its own fields. */
  ghost predicate Waits(reservations: Reservations, rid: string, now: Time) {
    rid in reservations && reservations[rid].state == Reserved && now < reservations[rid].expiresAt
  }

  /** How many places are taken at `now`: the listed beats and the rows that wait for theirs. */
  ghost function Taken(ledger: Ledger, now: Time): nat {
    |ledger.beats| + |set rid | rid in ledger.reservations && Waits(ledger.reservations, rid, now)|
  }

  /** A row of this id may be reserved again: it is about the same beat, is not spent, and was denied only if that is
      to be tried again. */
  ghost predicate Reopens(reservations: Reservations, rid: string, beat: BeatId, retryDenied: bool) {
    rid in reservations ==>
      && reservations[rid].beat == beat && reservations[rid].state != Committed
      && (reservations[rid].state == Denied ==> retryDenied)
  }

  lemma TakenIsOccupied(ledger: Ledger, now: Time)
    ensures Taken(ledger, now) == Occupied(ledger, now)
  {
    var waiting := set rid | rid in ledger.reservations && Waits(ledger.reservations, rid, now);
    assert waiting == LivePending(ledger.reservations, now);
  }

  lemma HeldIsWaiting(reservations: Reservations, beat: BeatId, now: Time)
    ensures BeatHeld(Expire(reservations, now), beat)
            <==> exists q <- reservations :: Waits(reservations, q, now) && reservations[q].beat == beat
  {
    ExpireHidesNothing(reservations, now);
    if BeatHeld(Expire(reservations, now), beat) {
      var q :| q in Expire(reservations, now) && Expire(reservations, now)[q].state == Reserved
               && Expire(reservations, now)[q].beat == beat;
      assert q in reservations && Waits(reservations, q, now);
    }
    if q :| q in reservations && Waits(reservations, q, now) && reservations[q].beat == beat {
      assert Expire(reservations, now)[q] == reservations[q];
    }
  }

  /** A place is granted, and its row says so for a full term, exactly to a valid and never purged beat of a library
      with an INDEX which either holds this very reservation already, or is not listed, is not waiting under another id
      and finds a free place; a full library turns exactly the others of these away with a DENIED row. */
  lemma ReserveExactly(ledger: Ledger, beat: BeatId, rid: string, retryDenied: bool, limit: Option<nat>, now: Time)
    ensures var (after, r) := Reserve(ledger, beat, rid, retryDenied, limit, now);
            var rows := ledger.reservations;
            var welcome := ValidId(beat) && ValidId(rid) && ledger.index.Some? && beat !in ledger.purges;
            var again := Waits(rows, rid, now) && rows[rid].beat == beat;
            var anew := !Waits(rows, rid, now) && Reopens(rows, rid, beat, retryDenied) && beat !in ledger.beats
                        && !exists q <- rows :: Waits(rows, q, now) && rows[q].beat == beat;
            var room := limit.Some? ==> Taken(ledger, now) < limit.value;
            && (r == Ok(Reserved) <==> welcome && (again || (anew && room)))
            && (welcome && again ==> rid in after.reservations && after.reservations[rid] == rows[rid])
            && (welcome && anew && room ==>
                  rid in after.reservations
                  && after.reservations[rid] == Reservation(beat, Reserved, now + RESERVATION_TTL_MS))
            && (welcome && anew && !room ==> r == Err(Exceeded) && rid in after.reservations
                                             && after.reservations[rid].state == Denied)
            && forall q <- rows | Waits(rows, q, now) :: q in after.reservations && after.reservations[q] == rows[q]
  {
    hide ValidId, BeatHeld, Taken, Occupied;
    ExpireHidesNothing(ledger.reservations, now);
    TakenIsOccupied(ledger, now);
    OccupiedWhileExpiring(ledger, now);
    HeldIsWaiting(ledger.reservations, beat, now);
  }

  /** A row as it stands at `now`: its term may have run out. */
  ghost function AsOf(r: Reservation, now: Time): Reservation {
    if r.state == Reserved && r.expiresAt <= now then r.(state := Expired) else r
  }

  /** Every row but this one stands as it did, terms that ran out apart; nothing else in the ledger changes. */
  ghost predicate OnlyRow(ledger: Ledger, rid: string, now: Time, after: Ledger) {
    && after == ledger.(reservations := after.reservations)
    && after.reservations.Keys == ledger.reservations.Keys
    && forall q <- ledger.reservations | q != rid ::
         after.reservations[q] == AsOf(ledger.reservations[q], now)
  }

  /** Exactly a waiting row is renewed, for a full term from now. */
  lemma RenewExactly(ledger: Ledger, rid: string, now: Time)
    ensures var (after, r) := Renew(ledger, rid, now);
            && (r.Ok? <==> 0 < |rid| <= 256 && ledger.index.Some? && Waits(ledger.reservations, rid, now))
            && (r.Err? ==> after == ledger)
            && (r.Ok? ==> && r.value == Reserved && OnlyRow(ledger, rid, now, after)
                          && after.reservations[rid]
                             == ledger.reservations[rid].(expiresAt := now + RESERVATION_TTL_MS))
  {
  }

  /** Every known row but a committed one can be cancelled: one that waits ends, any other stays what it is. */
  lemma CancelExactly(ledger: Ledger, rid: string, now: Time)
    ensures var (after, r) := Cancel(ledger, rid, now);
            && (r.Ok? <==> && 0 < |rid| <= 256 && ledger.index.Some? && rid in ledger.reservations
                           && ledger.reservations[rid].state != Committed)
            && (r.Err? ==> after == ledger)
            && (r.Ok? ==> && OnlyRow(ledger, rid, now, after) && r.value == after.reservations[rid].state
                          && after.reservations[rid]
                             == if Waits(ledger.reservations, rid, now)
                                then ledger.reservations[rid].(state := Canceled)
                                else AsOf(ledger.reservations[rid], now))
  {
  }

  lemma OccupiedWhileExpiring(ledger: Ledger, now: Time)
    ensures Occupied(Expiring(ledger, now), now) == Occupied(ledger, now)
  {
    hide LivePending, Expire;
    ExpireHidesNothing(ledger.reservations, now);
  }

  lemma LiveOnes(reservations: Reservations, now: Time)
    ensures forall rid :: rid in LivePending(reservations, now) <==> rid in reservations && Live(reservations[rid], now)
  {
  }

  /** Renewing keeps every place as it is. */
  lemma RenewTakesNoPlace(ledger: Ledger, rid: string, now: Time)
    ensures Occupied(Renew(ledger, rid, now).0, now) == Occupied(ledger, now)
  {
    hide Expire, LivePending, ValidId;
    ExpireHidesNothing(ledger.reservations, now);
    var expired := Expire(ledger.reservations, now);
    if rid in expired && expired[rid].state == Reserved {
      CountAfterUpdate(expired, rid, expired[rid].(expiresAt := now + RESERVATION_TTL_MS), now);
    }
  }

  /** Cancelling frees exactly the place it names, and a cancelled row holds none. */
  lemma CancelFreesItsPlace(ledger: Ledger, rid: string, now: Time)
    ensures var (after, r) := Cancel(ledger, rid, now);
            && after.beats == ledger.beats
            && LivePending(after.reservations, now)
               == (if r == Ok(Canceled) then LivePending(ledger.reservations, now) - {rid}
                   else LivePending(ledger.reservations, now))
  {
    hide Expire, LivePending, ValidId, Live;
    ExpireHidesNothing(ledger.reservations, now);
    var expired := Expire(ledger.reservations, now);
    if rid in expired {
      LiveAfterUpdate(expired, rid, expired[rid].(state := Canceled), now);
      LiveOnes(expired, now);
      NotLive(expired[rid].(state := Canceled), now);
      NotLive(expired[rid], now);
    }
  }

  lemma NotLive(r: Reservation, now: Time)
    ensures r.state != Reserved ==> !Live(r, now)
  {
  }

  /** Time alone only frees places. */
  lemma TimeFreesPlaces(ledger: Ledger, now: Time, later: Time)
    requires now <= later
    ensures Occupied(ledger, later) <= Occupied(ledger, now)
  {
    SubsetIsSmaller(LivePending(ledger.reservations, later), LivePending(ledger.reservations, now));
  }
}
