/** One turn of the cleanup loop, run on a session. */
module CleanupTask {
  import opened Domain
  import opened Serial
  import opened Sessions
  import Sets

  /** Rows of the scan in the order the database returns them; locked rows are skipped. */
  method SelectExpired(session: Session, locked: set<BookingId>, cutoff: Time) returns (rows: seq<BookingId>)
    ensures Sweepable(session.Working(), rows, cutoff)
    ensures forall b <- session.bookings :: b in rows <==>
              && session.bookings[b].status == Reserved && session.bookings[b].expiresAt.Some?
              && session.bookings[b].expiresAt.value < cutoff && b !in locked
  {
    rows := [];
    var left := set b | b in session.bookings && Stale(session.bookings[b], cutoff) && b !in locked;
    while left != {}
      invariant Sweepable(session.Working(), rows, cutoff)
      invariant forall b <- rows :: b !in locked && b !in left
      invariant forall b <- left :: b in session.bookings && Stale(session.bookings[b], cutoff) && b !in locked
      invariant forall b <- session.bookings :: Stale(session.bookings[b], cutoff) && b !in locked ==>
              b in rows || b in left
      decreases |left|
    {
      ghost var some := Sets.Pick(left);
      var b: BookingId :| b in left;
      rows := rows + [b];
      left := left - {b};
    }
  }

  /** cutoff is now() of the pass, which PostgreSQL fixes when the transaction begins. */
  method CleanupPass(session: Session, locked: set<BookingId>, cutoff: Time, lands: bool)
      returns (expired: seq<BookingId>)
    requires session.Clean()
    modifies session
    ensures session.Clean() && Sweepable(old(session.committed), expired, cutoff)
    ensures forall b <- old(session.committed).bookings ::
              b in expired <==>
                && old(session.committed).bookings[b].status == Reserved
                && old(session.committed).bookings[b].expiresAt.Some?
                && old(session.committed).bookings[b].expiresAt.value < cutoff && b !in locked
    ensures session.committed == if lands then Sweep(old(session.committed), expired, cutoff)
            else old(session.committed)
  {
    expired := SelectExpired(session, locked, cutoff);
    ghost var before := session.committed;
    var i := 0;
    while i < |expired|
      invariant 0 <= i <= |expired| && session.committed == before
      invariant Sweepable(before, expired, cutoff)
      invariant session.Working() == Sweep(before, expired[..i], cutoff)
    {
      var b := expired[i];
      session.bookings := session.bookings[b := session.bookings[b].(status := Cancelled, cancelledAt := Some(cutoff))];
      session.LogAudit(b, SYSTEM_USER, LogExpired, Some(Reserved), Cancelled);
      assert expired[..i + 1] == expired[..i] + [b];
      i := i + 1;
    }
    assert expired[..i] == expired;
    session.Commit(lands);
  }
}
