/** A database session: the committed tables and a private working copy of them. */
module Sessions {
  import opened Domain
  import opened Serial

  class Session {
    var committed: Database
    var bookings: map<BookingId, Booking>
    var payments: map<Key, Payment>
    var audit: seq<Entry>

    constructor (db: Database)
      ensures committed == db && Clean()
    {
      committed := db;
      bookings := db.bookings;
      payments := db.payments;
      audit := db.audit;
    }

    /** The tables as this session sees them. */
    ghost function Working(): Database
      reads this
    {
      Database(bookings, payments, audit)
    }

    /** Nothing is pending. */
    ghost predicate Clean()
      reads this
    {
      Working() == committed
    }

    /** Appends an entry to the pending writes of the caller's transaction. */
    method LogAudit(b: BookingId, user: UserId, action: Action, previous: Option<Status>, next: Status)
      modifies this`audit
      ensures audit == old(audit) + [Entry(b, user, action, previous, next)]
    {
      audit := audit + [Entry(b, user, action, previous, next)];
    }

    /** Deletes a booking and flushes: refused while a child row refers to it. */
    method DeleteBooking(b: BookingId) returns (ok: bool)
      modifies this`bookings
      ensures ok <==> (forall e <- audit :: e.booking != b) && (forall k <- payments :: payments[k].booking != b)
      ensures ok <==> !HasChildren(old(Working()), b)
      ensures bookings == if ok then old(bookings) - {b} else old(bookings)
    {
      var entries := exists e | e in audit :: e.booking == b;
      var paid := exists k | k in payments :: payments[k].booking == b;
      ok := !entries && !paid;
      if ok {
        bookings := bookings - {b};
      }
    }

    /** Inserts a booking and flushes: refused when the id or a UNIQUE column is taken or a
        foreign key has no row. */
    method InsertBooking(c: Catalog, id: BookingId, row: Booking) returns (ok: bool)
      modifies this`bookings
      ensures ok <==>
              && id !in old(bookings) && (forall b <- old(bookings) :: old(bookings)[b].key != row.key)
              && (forall b <- old(bookings) ::
                 old(bookings)[b].schedule != row.schedule || old(bookings)[b].seat != row.seat)
              && row.user in c.users && row.schedule in c.schedules && row.seat in c.seats
      ensures bookings == if ok then old(bookings)[id := row] else old(bookings)
    {
      var taken := exists b | b in bookings ::
        bookings[b].key == row.key || (bookings[b].schedule == row.schedule && bookings[b].seat == row.seat);
      ok := id !in bookings && !taken && row.user in c.users && row.schedule in c.schedules && row.seat in c.seats;
      if ok {
        bookings := bookings[id := row];
      }
    }

    /** Makes all pending writes the committed tables, or loses them when the commit fails. */
    method Commit(lands: bool)
      modifies this
      ensures committed == if lands then old(Working()) else old(committed)
      ensures Clean()
    {
      if lands {
        committed := Database(bookings, payments, audit);
      } else {
        Rollback();
      }
    }

    method Rollback()
      modifies this`bookings, this`payments, this`audit
      ensures Clean()
    {
      bookings := committed.bookings;
      payments := committed.payments;
      audit := committed.audit;
    }
  }
}
