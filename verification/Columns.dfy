/** What each operation answers and writes, told by the columns of the tables alone: no query,
    guard or constant of the specification is named on the right-hand sides. */
module Columns {
  import opened Domain
  import opened AuditLog
  import opened Serial
  import opened Consistency
  import opened Guarantees
  import opened Race
  import Sets

  // ---------- create ----------

  /** The overlap query finds nothing exactly when the user has no reserved or confirmed row
      on a schedule that departs before this one arrives and arrives after it departs. */
  lemma OverlapQueryIsEmpty(c: Catalog, db: Database, outcomes: map<Key, Charge>, user: UserId, schedule: ScheduleId)
    requires Consistent(c, db, outcomes) && schedule in c.schedules
    ensures OverlapHits(c, db, user, schedule) == {} <==>
            forall b <- db.bookings ::
              !(&& db.bookings[b].user == user && db.bookings[b].status in {Reserved, Confirmed}
                && db.bookings[b].schedule in c.schedules
                && c.schedules[db.bookings[b].schedule].departure < c.schedules[schedule].arrival
                && c.schedules[db.bookings[b].schedule].arrival > c.schedules[schedule].departure)
  {
    var hits := OverlapHits(c, db, user, schedule);
    assert forall b <- db.bookings :: OverlapHit(c, db.bookings[b], user, schedule) <==> b in hits;
    if hits != {} {
      var b := Sets.Pick(hits);
      assert b in db.bookings;
    }
  }

  /** The rows that stand against a create for this user and schedule. */
  ghost function Conflicts(c: Catalog, db: Database, user: UserId, schedule: ScheduleId): set<BookingId>
    requires schedule in c.schedules
  {
    set b | b in db.bookings && db.bookings[b].user == user && db.bookings[b].status in {Reserved, Confirmed}
            && db.bookings[b].schedule in c.schedules
            && c.schedules[db.bookings[b].schedule].departure < c.schedules[schedule].arrival
            && c.schedules[db.bookings[b].schedule].arrival > c.schedules[schedule].departure
  }

  /** A key that has a booking is answered with it. */
  lemma KnownKey(c: Catalog, db: Database, outcomes: map<Key, Charge>, a: CreateArgs, now: Time, id: BookingId,
        b: BookingId)
    requires Consistent(c, db, outcomes) && b in db.bookings && db.bookings[b].key == a.key
    ensures CreateNow(c, db, a, now, id) == (db, Found(b)) && StatusCode(Found(b)) == 201
  {
    HoldersAreExact(c, db, outcomes);
    assert HoldsKeyRow(db, a.key, b);
  }

  lemma NewKeyHasNoHolder(db: Database, key: Key)
    requires forall b <- db.bookings :: db.bookings[b].key != key
    ensures KeyHolder(db, key) == None
  {
  }

  /** A seat that is reserved or confirmed is refused with a conflict. */
  lemma LiveSeat(c: Catalog, db: Database, outcomes: map<Key, Charge>, a: CreateArgs, now: Time, id: BookingId,
        b: BookingId)
    requires Consistent(c, db, outcomes) && (forall x <- db.bookings :: db.bookings[x].key != a.key)
    requires b in db.bookings && db.bookings[b].schedule == a.schedule && db.bookings[b].seat == a.seat
    requires db.bookings[b].status in {Reserved, Confirmed}
    ensures CreateNow(c, db, a, now, id) == (db, SeatTaken) && StatusCode(SeatTaken) == 409
  {
    HoldersAreExact(c, db, outcomes);
    NewKeyHasNoHolder(db, a.key);
    assert HoldsSeatRow(db, a.schedule, a.seat, b);
  }

  /** Key and seat are past their checks: no row has the key, none sits on the seat alive. */
  ghost predicate SeatIsOpen(db: Database, a: CreateArgs) {
    forall b <- db.bookings ::
      && db.bookings[b].key != a.key
      && (db.bookings[b].schedule == a.schedule && db.bookings[b].seat == a.seat ==>
            db.bookings[b].status in {Cancelled, Refunded})
  }

  lemma OpenSeatIsNotActive(c: Catalog, db: Database, a: CreateArgs)
    requires SeatIsOpen(db, a)
    ensures KeyHolder(db, a.key) == None
    ensures var row := SeatHolder(db, a.schedule, a.seat);
      row.Some? ==> HoldsSeatRow(db, a.schedule, a.seat, row.value) && !db.bookings[row.value].status.Active()
  {
    NewKeyHasNoHolder(db, a.key);
  }

  lemma ConflictsAreHits(c: Catalog, db: Database, user: UserId, schedule: ScheduleId)
    requires schedule in c.schedules
    ensures OverlapHits(c, db, user, schedule) == Conflicts(c, db, user, schedule)
  {
    var hits, conflicts := OverlapHits(c, db, user, schedule), Conflicts(c, db, user, schedule);
    forall b <- db.bookings
      ensures b in hits <==> b in conflicts
    {
      assert OverlapHit(c, db.bookings[b], user, schedule) <==> b in conflicts;
    }
    Sets.Contained(hits, conflicts);
    Sets.Contained(conflicts, hits);
  }

  /** An unknown schedule is not found. */
  lemma UnknownSchedule(c: Catalog, db: Database, outcomes: map<Key, Charge>, a: CreateArgs, now: Time, id: BookingId)
    requires Consistent(c, db, outcomes) && SeatIsOpen(db, a) && a.schedule !in c.schedules
    ensures CreateNow(c, db, a, now, id) == (db, NotFound) && StatusCode(NotFound) == 404
  {
    OpenSeatIsNotActive(c, db, a);
  }

  /** One overlapping journey is a conflict; two or more make the query itself fail. */
  lemma OverlappingJourney(c: Catalog, db: Database, outcomes: map<Key, Charge>, a: CreateArgs, now: Time,
        id: BookingId)
    requires Consistent(c, db, outcomes) && SeatIsOpen(db, a) && a.schedule in c.schedules
    requires Conflicts(c, db, a.user, a.schedule) != {}
    ensures |Conflicts(c, db, a.user, a.schedule)| == 1 ==> CreateNow(c, db, a, now, id) == (db, JourneyOverlap)
    ensures |Conflicts(c, db, a.user, a.schedule)| >= 2 ==> CreateNow(c, db, a, now, id) == (db, ServerError)
    ensures StatusCode(JourneyOverlap) == 409 && StatusCode(ServerError) == 500
  {
    OpenSeatIsNotActive(c, db, a);
    ConflictsAreHits(c, db, a.user, a.schedule);
  }

  /** An unknown seat is not found; a retired row on the seat or an unknown user breaks a
      foreign key. */
  lemma BrokenReference(c: Catalog, db: Database, outcomes: map<Key, Charge>, a: CreateArgs, now: Time, id: BookingId)
    requires Consistent(c, db, outcomes) && SeatIsOpen(db, a) && a.schedule in c.schedules
    requires Conflicts(c, db, a.user, a.schedule) == {}
    ensures a.seat !in c.seats ==> CreateNow(c, db, a, now, id) == (db, NotFound)
    ensures a.seat in c.seats
            && (a.user !in c.users || exists b <- db.bookings ::
               db.bookings[b].schedule == a.schedule && db.bookings[b].seat == a.seat)
            ==> CreateNow(c, db, a, now, id) == (db, ServerError)
  {
    OpenSeatIsNotActive(c, db, a);
    ConflictsAreHits(c, db, a.user, a.schedule);
    var row := SeatHolder(db, a.schedule, a.seat);
    if row.Some? {
      EveryBookingHasChildren(c, db, outcomes, row.value);
    } else {
      assert forall b <- db.bookings :: !HoldsSeatRow(db, a.schedule, a.seat, b);
    }
  }

  /** Everything else commits: one new row that is held for 300 seconds at the price of its
      compartment, and one audit entry. */
  lemma CreateWrites(c: Catalog, db: Database, outcomes: map<Key, Charge>, a: CreateArgs, now: Time, id: BookingId)
    requires Consistent(c, db, outcomes)
    requires forall b <- db.bookings :: db.bookings[b].key != a.key
    requires forall b <- db.bookings :: db.bookings[b].schedule != a.schedule || db.bookings[b].seat != a.seat
    requires a.user in c.users && a.schedule in c.schedules && a.seat in c.seats
    requires Conflicts(c, db, a.user, a.schedule) == {}
    ensures var (db', out) := CreateNow(c, db, a, now, id);
      var price := if c.compartments[c.seats[a.seat].compartment].compType == "ac" then 150000 else 80000;
      var row := Booking(a.user, a.schedule, a.seat, Reserved, a.key, Some(now + 300), None, None, price);
      && out == Created(id) && StatusCode(out) == 201 && db'.bookings == db.bookings[id := row]
         && db'.payments == db.payments
      && db'.audit == db.audit + [Entry(id, a.user, LogReserved, None, Reserved)]
  {
    OpenSeatIsNotActive(c, db, a);
    ConflictsAreHits(c, db, a.user, a.schedule);
    assert forall b <- db.bookings :: !HoldsSeatRow(db, a.schedule, a.seat, b);
  }

  // ---------- pay ----------

  /** Every answer of pay that writes nothing, by its input. */
  lemma PayAnswers(db: Database, b: BookingId, user: UserId, key: Key, charge: Charge, now: Time, paid: Time)
    ensures var out := Pay(db, b, user, key, charge, now, paid).1;
      && (out == NotFound <==> b !in db.bookings)
      && (out == Forbidden <==> b in db.bookings && db.bookings[b].user != user)
      && (out == BadState <==> b in db.bookings && db.bookings[b].user == user && db.bookings[b].status != Reserved)
      && (out == HoldExpired <==>
            && b in db.bookings && db.bookings[b].user == user && db.bookings[b].status == Reserved
            && db.bookings[b].expiresAt.Some? && db.bookings[b].expiresAt.value < now)
      && (out == Found(b) <==>
            && b in db.bookings && db.bookings[b].user == user && db.bookings[b].status == Reserved
            && (db.bookings[b].expiresAt.Some? ==> now <= db.bookings[b].expiresAt.value) && key in db.payments)
      && (out == Settled(b) <==>
            && b in db.bookings && db.bookings[b].user == user && db.bookings[b].status == Reserved
            && (db.bookings[b].expiresAt.Some? ==> now <= db.bookings[b].expiresAt.value) && key !in db.payments)
      && (out != Settled(b) ==> Pay(db, b, user, key, charge, now, paid).0 == db)
      && (out == NotFound ==> StatusCode(out) == 404) && (out == Forbidden ==> StatusCode(out) == 403)
      && (out in {BadState, HoldExpired} ==> StatusCode(out) == 400) && (out == Settled(b) ==> StatusCode(out) == 200)
  {
  }

  /** What a settled payment writes: the status and its stamp, one payment of the full
      amount, and two audit entries. */
  lemma PayWrites(db: Database, b: BookingId, user: UserId, key: Key, charge: Charge, now: Time, paid: Time)
    requires b in db.bookings && Pay(db, b, user, key, charge, now, paid).1 == Settled(b)
    ensures var db', row := Pay(db, b, user, key, charge, now, paid).0, db.bookings[b];
      && db'.payments == db.payments[key := Payment(b, row.total, charge, paid)]
      && (charge.Accepted? ==>
            && db'.bookings == db.bookings[b := row.(status := Confirmed, confirmedAt := Some(paid))]
            && db'.audit == db.audit + [Entry(b, user, LogAttempted, Some(Reserved), Reserved),
                                        Entry(b, user, LogConfirmed, Some(Reserved), Confirmed)])
      && (charge.Declined? ==>
            && db'.bookings == db.bookings[b := row.(status := Cancelled, cancelledAt := Some(paid))]
            && db'.audit == db.audit + [Entry(b, user, LogAttempted, Some(Reserved), Reserved),
                                        Entry(b, user, LogFailed, Some(Reserved), Cancelled)])
  {
  }

  /** A hold made at time t can be paid up to t + 300 and not after. */
  lemma HoldIsPayableForFiveMinutes(c: Catalog, db: Database, outcomes: map<Key, Charge>, a: CreateArgs, t: Time,
        id: BookingId,
        key: Key, charge: Charge, now: Time, paid: Time)
    requires Consistent(c, db, outcomes) && CreateNow(c, db, a, t, id).1 == Created(id) && key !in db.payments
    ensures var held := CreateNow(c, db, a, t, id).0;
      && (now <= t + 300 ==> Pay(held, id, a.user, key, charge, now, paid).1 == Settled(id))
      && (now > t + 300 ==> Pay(held, id, a.user, key, charge, now, paid) == (held, HoldExpired))
  {
    CreatedMeansFree(c, db, outcomes, a, OverlapHits(c, db, a.user, a.schedule));
    ConflictsAreHits(c, db, a.user, a.schedule);
    CreateSucceedsExactly(c, db, outcomes, a, OverlapHits(c, db, a.user, a.schedule), t, id);
    CreateWrites(c, db, outcomes, a, t, id);
    PayAnswers(CreateNow(c, db, a, t, id).0, id, a.user, key, charge, now, paid);
  }

  // ---------- refund ----------

  /** Every answer of refund, by its input: it settles up to 3600 seconds before departure. */
  lemma RefundAnswers(c: Catalog, db: Database, outcomes: map<Key, Charge>, b: BookingId, user: UserId,
        decided: Time, done: Time)
    requires Consistent(c, db, outcomes)
    ensures var out := Refund(c, db, b, user, decided, done).1;
      && (out == NotFound <==> b !in db.bookings)
      && (out == Forbidden <==> b in db.bookings && db.bookings[b].user != user)
      && (out == BadState <==> b in db.bookings && db.bookings[b].user == user && db.bookings[b].status != Confirmed)
      && (b in db.bookings ==> db.bookings[b].schedule in c.schedules)
      && (out == TooLate <==>
            && b in db.bookings && db.bookings[b].user == user && db.bookings[b].status == Confirmed
            && c.schedules[db.bookings[b].schedule].departure < decided + 3600)
      && (out == Settled(b) <==>
            && b in db.bookings && db.bookings[b].user == user && db.bookings[b].status == Confirmed
            && c.schedules[db.bookings[b].schedule].departure >= decided + 3600)
      && (out != Settled(b) ==> Refund(c, db, b, user, decided, done).0 == db)
      && (out == NotFound ==> StatusCode(out) == 404) && (out == Forbidden ==> StatusCode(out) == 403)
      && (out in {BadState, TooLate} ==> StatusCode(out) == 400) && (out == Settled(b) ==> StatusCode(out) == 200)
  {
    if b in db.bookings {
      assert RowOk(c, db.bookings[b]);
      PaymentsMatchStatus(c, db, outcomes, b);
    }
  }

  /** What a refund writes: the status and its stamp, and one audit entry. */
  lemma RefundWrites(c: Catalog, db: Database, b: BookingId, user: UserId, decided: Time, done: Time)
    requires b in db.bookings && Refund(c, db, b, user, decided, done).1 == Settled(b)
    ensures var db' := Refund(c, db, b, user, decided, done).0;
      && db'.bookings == db.bookings[b := db.bookings[b].(status := Refunded, cancelledAt := Some(done))]
      && db'.payments == db.payments
      && db'.audit == db.audit + [Entry(b, user, LogRefunded, Some(Confirmed), Refunded)]
  {
  }

  // ---------- cleanup ----------

  /** The rows a pass may list: reserved, with an expiry strictly before the cutoff. */
  lemma PassLists(db: Database, ids: seq<BookingId>, cutoff: Time)
    ensures Sweepable(db, ids, cutoff) <==>
            && (forall b <- ids :: b in db.bookings && db.bookings[b].status == Reserved
                                   && db.bookings[b].expiresAt.Some? && db.bookings[b].expiresAt.value < cutoff)
            && (forall i, j | 0 <= i < j < |ids| :: ids[i] != ids[j])
  {
  }

  lemma {:induction false} PassAppends(db: Database, ids: seq<BookingId>, cutoff: Time)
    requires Sweepable(db, ids, cutoff)
    ensures Sweep(db, ids, cutoff).audit == db.audit + seq(|ids|, i requires 0 <= i < |ids| =>
              Entry(ids[i], SYSTEM_USER, LogExpired, Some(Reserved), Cancelled))
  {
    if ids != [] {
      PassAppends(db, ids[..|ids| - 1], cutoff);
    }
  }

  /** What a pass writes: a status and a stamp for each of its rows, and one audit entry each,
      in their order. */
  lemma PassWrites(db: Database, ids: seq<BookingId>, cutoff: Time)
    requires Sweepable(db, ids, cutoff)
    ensures var db' := Sweep(db, ids, cutoff);
      && db'.payments == db.payments
      && (forall b <- db.bookings :: db'.bookings[b] ==
            if b in ids then db.bookings[b].(status := Cancelled, cancelledAt := Some(cutoff)) else db.bookings[b])
      && |db'.audit| == |db.audit| + |ids| && db'.audit[..|db.audit|] == db.audit
      && forall i | 0 <= i < |ids| ::
           db'.audit[|db.audit| + i] == Entry(ids[i], 0, LogExpired, Some(Reserved), Cancelled)
  {
    SweepEffect(db, ids, cutoff);
    PassAppends(db, ids, cutoff);
  }

  // ---------- the trail ----------

  /** The audit rows of a booking, oldest first, for each status it can have. */
  lemma TrailByStatus(c: Catalog, db: Database, outcomes: map<Key, Charge>, b: BookingId)
    requires Consistent(c, db, outcomes) && b in db.bookings
    ensures var t, u := Trail(db.audit, b), db.bookings[b].user;
      var reserved, attempted := Entry(b, u, LogReserved, None, Reserved), Entry(b, u, LogAttempted, Some(Reserved),
          Reserved);
      var confirmed, failed := Entry(b, u, LogConfirmed, Some(Reserved), Confirmed), Entry(b, u, LogFailed,
          Some(Reserved), Cancelled);
      var refunded, expired := Entry(b, u, LogRefunded, Some(Confirmed), Refunded), Entry(b, 0, LogExpired,
          Some(Reserved), Cancelled);
      match db.bookings[b].status
      case Reserved => t == [reserved]
      case Confirmed => t == [reserved, attempted, confirmed]
      case Refunded => t == [reserved, attempted, confirmed, refunded]
      case Cancelled => t == [reserved, attempted, failed] || t == [reserved, expired]
  {
    assert Told(db, b);
  }
}
