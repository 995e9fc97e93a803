/** What the consistency of the tables means for one state of them. */
module Guarantees {
  import opened Domain
  import opened AuditLog
  import opened Serial
  import opened Consistency
  import Sets

  // ---------- audit replay ----------

  /** The five stories a booking's trail can tell. */
  ghost predicate Story(b: BookingId, u: UserId, t: seq<Entry>) {
    || t == HeldTrail(b, u) || t == PaidTrail(b, u) || t == FailedTrail(b, u)
    || t == ExpiredTrail(b, u) || t == RefundedTrail(b, u)
  }

  /** Replaying a booking's trail gives its current status. */
  lemma TrailReplays(c: Catalog, db: Database, outcomes: map<Key, Charge>, b: BookingId)
    requires Consistent(c, db, outcomes) && b in db.bookings
    ensures var t := Trail(db.audit, b);
      && Story(b, db.bookings[b].user, t)
      && t[0].previous == None && t[|t| - 1].next == db.bookings[b].status
      && forall i | 0 < i < |t| :: t[i].previous == Some(t[i - 1].next)
  {
    assert Told(db, b);
  }

  // ---------- create ----------

  /** A create commits exactly when its key is unused, no row of any status sits on the
      seat, the ids exist and no active journey of the user overlaps. */
  lemma CreateSucceedsExactly(c: Catalog, db: Database, outcomes: map<Key, Charge>, a: CreateArgs,
        hits: set<BookingId>, now: Time, id: BookingId)
    requires Consistent(c, db, outcomes)
    ensures Create(c, db, a, hits, now, id).1 == Created(id) <==>
            && (forall b <- db.bookings :: db.bookings[b].key != a.key)
            && (forall b <- db.bookings :: db.bookings[b].schedule != a.schedule || db.bookings[b].seat != a.seat)
            && a.schedule in c.schedules && a.seat in c.seats && a.user in c.users && hits == {}
    ensures hits == OverlapHits(c, db, a.user, a.schedule) ==>
            (hits == {} <==> forall b <- db.bookings ::
               !(&& db.bookings[b].user == a.user && db.bookings[b].status in {Reserved, Confirmed}
                 && db.bookings[b].schedule in c.schedules && a.schedule in c.schedules
                 && c.schedules[db.bookings[b].schedule].departure < c.schedules[a.schedule].arrival
                 && c.schedules[db.bookings[b].schedule].arrival > c.schedules[a.schedule].departure))
  {
    assert forall b <- db.bookings :: OverlapHit(c, db.bookings[b], a.user, a.schedule) <==>
        b in OverlapHits(c, db, a.user, a.schedule);
    assert forall b <- db.bookings :: HoldsKeyRow(db, db.bookings[b].key, b);
    assert forall b <- db.bookings :: HoldsSeatRow(db, db.bookings[b].schedule, db.bookings[b].seat, b);
    if CreateVerdict(c, db, a, hits).None? {
      CreatedMeansFree(c, db, outcomes, a, hits);
    }
  }

  /** A seat whose booking was cancelled or refunded cannot be booked again: the delete of
      the old row meets its audit rows, and the request ends in a server error. */
  lemma RetiredSeatStaysBlocked(c: Catalog, db: Database, outcomes: map<Key, Charge>, a: CreateArgs, now: Time,
        id: BookingId, b: BookingId)
    requires Consistent(c, db, outcomes)
    requires HoldsSeatRow(db, a.schedule, a.seat, b) && db.bookings[b].status in {Cancelled, Refunded}
    requires KeyHolder(db, a.key).None? && OverlapHits(c, db, a.user, a.schedule) == {}
    ensures Create(c, db, a, {}, now, id) == (db, ServerError)
  {
    HoldersAreExact(c, db, outcomes);
    EveryBookingHasChildren(c, db, outcomes, b);
    assert RowOk(c, db.bookings[b]);
  }

  /** A create whose key already has a booking returns that booking and writes nothing. */
  lemma CreateIsIdempotent(c: Catalog, db: Database, outcomes: map<Key, Charge>, a: CreateArgs, hits: set<BookingId>,
        now: Time, id: BookingId, b: BookingId)
    requires Consistent(c, db, outcomes) && HoldsKeyRow(db, a.key, b)
    ensures Create(c, db, a, hits, now, id) == (db, Found(b))
  {
    HoldersAreExact(c, db, outcomes);
  }

  // ---------- pay ----------

  /** The early return of pay for a known payment key is reached exactly when the key
      paid for a different booking; this booking then stays reserved and unpaid. */
  lemma PayEarlyReturnExactly(c: Catalog, db: Database, outcomes: map<Key, Charge>, b: BookingId, user: UserId,
        key: Key, now: Time)
    requires Consistent(c, db, outcomes)
    ensures PayVerdict(db, b, user, key, now) == Some(Found(b)) <==>
            && b in db.bookings && db.bookings[b].user == user && db.bookings[b].status == Reserved
            && (db.bookings[b].expiresAt.Some? ==> now <= db.bookings[b].expiresAt.value)
            && key in db.payments && db.payments[key].booking != b
    ensures PayVerdict(db, b, user, key, now) == Some(Found(b)) ==> PaymentsOf(db, b) == {}
  {
    if b in db.bookings && db.bookings[b].status == Reserved {
      assert Told(db, b) && key !in PaymentsOf(db, b);
    }
  }

  /** Repeating a payment that went through is refused: the status guard comes before the
      key lookup, so the retry does not get the original answer. */
  lemma PayRetryIsRefused(c: Catalog, db: Database, outcomes: map<Key, Charge>, b: BookingId, user: UserId, key: Key,
        now: Time)
    requires Consistent(c, db, outcomes)
    requires key in db.payments && db.payments[key].booking == b && b in db.bookings && db.bookings[b].user == user
    ensures PayVerdict(db, b, user, key, now) == Some(BadState)
  {
    assert Told(db, b) && key in PaymentsOf(db, b);
  }

  /** Payments of a booking, by its status: none, one success of the full amount, or one refusal. */
  lemma PaymentsMatchStatus(c: Catalog, db: Database, outcomes: map<Key, Charge>, b: BookingId)
    requires Consistent(c, db, outcomes) && b in db.bookings
    ensures |PaymentsOf(db, b)| <= 1
    ensures db.bookings[b].status == Reserved ==> PaymentsOf(db, b) == {}
    ensures db.bookings[b].status == Cancelled ==> Successes(db, b) == {}
    ensures db.bookings[b].status in {Confirmed, Refunded} ==>
            exists k :: k in db.payments && Successes(db, b) == PaymentsOf(db, b) == {k}
                && db.payments[k].amount == db.bookings[b].total
    ensures forall k <- PaymentsOf(db, b) :: k in outcomes && outcomes[k] == db.payments[k].charge
  {
    assert Told(db, b);
    assert forall k <- PaymentsOf(db, b) :: PaymentOk(db, outcomes, k);
    var all := PaymentsOf(db, b);
    if db.bookings[b].status in {Confirmed, Refunded} {
      var k := Sets.OnlyElement(all);
      assert k in all && Successes(db, b) == {k};
    } else if db.bookings[b].status == Cancelled {
      assert forall k <- db.payments :: k in all <==> db.payments[k].booking == b;
      assert forall k :: k !in Successes(db, b);
    }
  }

  /** A cleanup entry and a payment row never belong to the same booking. */
  lemma PaidNeverExpires(c: Catalog, db: Database, outcomes: map<Key, Charge>, b: BookingId, k: Key)
    requires Consistent(c, db, outcomes) && k in db.payments && db.payments[k].booking == b
    ensures ExpireEntry(b) !in db.audit
  {
    assert PaymentOk(db, outcomes, k) && k in PaymentsOf(db, b) && Told(db, b);
    if ExpireEntry(b) in db.audit {
      TrailFinds(db.audit, ExpireEntry(b));
      assert false;
    }
  }
}
