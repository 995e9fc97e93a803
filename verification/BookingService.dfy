/** The three request handlers, run alone on a session. Each is proved equal to its atomic
    operation, or to leave the tables alone when its commit does not land; a request that
    raises is rolled back. */
module BookingService {
  import opened Domain
  import opened Serial
  import opened Sessions
  import opened PaymentGateway

  method FindByKey(session: Session, key: Key) returns (row: Option<BookingId>)
    requires KeysUnique(session.Working())
    ensures row == KeyHolder(session.Working(), key)
  {
    if b: BookingId :| b in session.bookings && session.bookings[b].key == key {
      assert HoldsKeyRow(session.Working(), key, b);
      return Some(b);
    }
    assert forall b: BookingId :: !HoldsKeyRow(session.Working(), key, b);
    return None;
  }

  method LockSeat(session: Session, schedule: ScheduleId, seat: SeatId) returns (row: Option<BookingId>)
    requires SeatsUnique(session.Working())
    ensures row == SeatHolder(session.Working(), schedule, seat)
  {
    if b: BookingId :|
      b in session.bookings && session.bookings[b].schedule == schedule && session.bookings[b].seat == seat {
      assert HoldsSeatRow(session.Working(), schedule, seat, b);
      return Some(b);
    }
    assert forall b: BookingId :: !HoldsSeatRow(session.Working(), schedule, seat, b);
    return None;
  }

  /** Writes only if the commit lands; a refusal needs no commit. */
  ghost function Landed(lands: bool, before: Database, done: (Database, Outcome), refused: bool): (Database, Outcome) {
    if lands || refused then done else (before, Aborted)
  }

  /** id stands for the generated primary key and now for the clock. A row that gives way to
      the new one also gives up its id. */
  method CreateBooking(c: Catalog, session: Session, a: CreateArgs, now: Time, id: BookingId, lands: bool)
      returns (out: Outcome)
    requires c.Valid() && session.Clean() && KeysUnique(session.committed) && SeatsUnique(session.committed)
    modifies session
    ensures session.Clean()
    ensures var db := old(session.committed);
      var (db', answer) := CreateNow(c, db, a, now, id);
      (session.committed, out) ==
        if id in db.bookings && answer == Created(id) && SeatHolder(db, a.schedule, a.seat) != Some(id)
            then (db, ServerError)
        else Landed(lands, db, (db', answer), answer != Created(id))
  {
    var known := FindByKey(session, a.key);
    if known.Some? {
      return Found(known.value);
    }
    var previous := LockSeat(session, a.schedule, a.seat);
    if previous.Some? && session.bookings[previous.value].status.Active() {
      return SeatTaken;
    }
    if a.schedule !in c.schedules {
      return NotFound;
    }
    var hits := set b | b in session.bookings && OverlapHit(c, session.bookings[b], a.user, a.schedule);
    if |hits| > 1 {
      return ServerError;
    }
    if hits != {} {
      return JourneyOverlap;
    }
    if a.seat !in c.seats {
      return NotFound;
    }
    var price := Price(c.compartments[c.seats[a.seat].compartment].compType);
    if previous.Some? {
      var ok := session.DeleteBooking(previous.value);
      if !ok {
        session.Rollback();
        return ServerError;
      }
    }
    var row := Booking(a.user, a.schedule, a.seat, Reserved, a.key, Some(now + HOLD_SECONDS), None, None, price);
    assert forall b <- session.bookings ::
      !HoldsKeyRow(session.committed, a.key, b) && !HoldsSeatRow(session.committed, a.schedule, a.seat, b);
    var inserted := session.InsertBooking(c, id, row);
    if !inserted {
      session.Rollback();
      return ServerError;
    }
    session.LogAudit(id, a.user, LogReserved, None, Reserved);
    session.Commit(lands);
    return if lands then Created(id) else Aborted;
  }

  /** decided is the clock at the expiry check and paid the clock after the charge. */
  method PayBooking(session: Session, gateway: MockPaymentGateway, b: BookingId, user: UserId, key: Key,
                    decided: Time, roll: real, ref: Ref, paid: Time, lands: bool) returns (out: Outcome)
    requires session.Clean()
    modifies session, gateway`processed
    ensures session.Clean()
    ensures PayVerdict(old(session.committed), b, user, key, decided).Some? ==>
            gateway.processed == old(gateway.processed)
    ensures PayVerdict(old(session.committed), b, user, key, decided).None? ==>
            && key in gateway.processed && gateway.processed - {key} == old(gateway.processed) - {key}
            && (key in old(gateway.processed) ==> gateway.processed == old(gateway.processed))
    ensures var db, charge := old(session.committed), if key in gateway.processed then gateway.processed[key]
            else Declined;
      (session.committed, out) ==
        Landed(lands, db, Pay(db, b, user, key, charge, decided, paid), PayVerdict(db, b, user, key, decided).Some?)
  {
    if b !in session.bookings {
      return NotFound;
    }
    var booking := session.bookings[b];
    if booking.user != user {
      return Forbidden;
    }
    if booking.status != Reserved {
      return BadState;
    }
    if booking.expiresAt.Some? && booking.expiresAt.value < decided {
      return HoldExpired;
    }
    if key in session.payments {
      return Found(b);
    }
    session.LogAudit(b, user, LogAttempted, Some(Reserved), Reserved);
    var charge := gateway.ChargeCard(key, roll, ref);
    if charge.Accepted? {
      session.bookings := session.bookings[b := booking.(status := Confirmed, confirmedAt := Some(paid))];
      session.payments := session.payments[key := Payment(b, booking.total, charge, paid)];
      session.LogAudit(b, user, LogConfirmed, Some(Reserved), Confirmed);
    } else {
      session.bookings := session.bookings[b := booking.(status := Cancelled, cancelledAt := Some(paid))];
      session.payments := session.payments[key := Payment(b, booking.total, charge, paid)];
      session.LogAudit(b, user, LogFailed, Some(Reserved), Cancelled);
    }
    assert session.audit == old(session.audit) + [AttemptEntry(b, user), SettleEntry(b, user, charge.Accepted?)];
    session.Commit(lands);
    return if lands then Settled(b) else Aborted;
  }

  /** The gateway is called with the reference of a successful payment, if there is one. */
  method RefundBooking(c: Catalog, session: Session, gateway: MockPaymentGateway, b: BookingId, user: UserId,
                       decided: Time, done: Time, lands: bool) returns (out: Outcome)
    requires session.Clean()
    modifies session, gateway`refunds
    ensures session.Clean()
    ensures var db := old(session.committed);
      (session.committed, out) ==
        Landed(lands, db, Refund(c, db, b, user, decided, done), RefundVerdict(c, db, b, user, decided).Some?)
    ensures out !in {Settled(b), Aborted} || Successes(old(session.committed), b) == {} ==>
            gateway.refunds == old(gateway.refunds)
    ensures out in {Settled(b), Aborted} ==> forall k <- Successes(old(session.committed), b) ::
              gateway.refunds == old(gateway.refunds) + [old(session.payments)[k].charge.ref]
  {
    if b !in session.bookings {
      return NotFound;
    }
    var booking := session.bookings[b];
    if booking.user != user {
      return Forbidden;
    }
    if booking.status != Confirmed {
      return BadState;
    }
    if booking.schedule !in c.schedules {
      return ServerError;
    }
    if c.schedules[booking.schedule].departure < decided + REFUND_NOTICE {
      return TooLate;
    }
    var found := set k | k in session.payments && session.payments[k].booking == b
        && session.payments[k].charge.Accepted?;
    assert found == Successes(session.committed, b);
    if |found| > 1 {
      return ServerError;
    }
    if k: Key :| k in found {
      assert |found - {k}| == 0;
      gateway.RefundCharge(session.payments[k].charge.ref);
    }
    session.bookings := session.bookings[b := booking.(status := Refunded, cancelledAt := Some(done))];
    session.LogAudit(b, user, LogRefunded, Some(Confirmed), Refunded);
    session.Commit(lands);
    return if lands then Settled(b) else Aborted;
  }
}
