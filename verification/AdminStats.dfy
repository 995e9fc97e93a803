/** The administrator's aggregates over one committed state. */
module AdminStats {
  import opened Domain
  import opened AuditLog
  import opened Serial
  import opened Guarantees
  import Sets

  datatype Stats = Stats(total: nat, confirmed: nat, cancelled: nat, refunded: nat, revenue: Money)

  ghost function WithStatus(db: Database, s: Status): set<BookingId> {
    set b | b in db.bookings && db.bookings[b].status == s
  }

  ghost function SuccessKeys(db: Database): set<Key> {
    set k | k in db.payments && db.payments[k].charge.Accepted?
  }

  ghost function AmountOf(db: Database, k: Key): Money {
    if k in db.payments then db.payments[k].amount else 0
  }

  ghost function TotalOf(db: Database, b: BookingId): Money {
    if b in db.bookings then db.bookings[b].total else 0
  }

  ghost function PayerOf(db: Database, k: Key): BookingId {
    if k in db.payments then db.payments[k].booking else 0
  }

  ghost function GetStats(db: Database): Stats {
    Stats(|db.bookings|, |WithStatus(db, Confirmed)|, |WithStatus(db, Cancelled)|, |WithStatus(db, Refunded)|,
          Sets.Sum(SuccessKeys(db), (k: Key) => AmountOf(db, k)))
  }

  /** Revenue is the price of every confirmed and every refunded booking: a refund is not
      taken off. The reported counts and the open reservations make up the total. */
  lemma StatsBalance(c: Catalog, db: Database, outcomes: map<Key, Charge>)
    requires Consistent(c, db, outcomes)
    ensures GetStats(db).revenue ==
            Sets.Sum(WithStatus(db, Confirmed) + WithStatus(db, Refunded), (b: BookingId) => TotalOf(db, b))
    ensures GetStats(db).total ==
            |WithStatus(db, Reserved)| + GetStats(db).confirmed + GetStats(db).cancelled + GetStats(db).refunded
  {
    RevenueIsSumOfTotals(c, db, outcomes);
    StatusesPartition(db);
  }

  /** The report in the columns of the tables. */
  lemma StatsInColumns(db: Database)
    ensures var r := GetStats(db);
      && r.total == |set b | b in db.bookings|
      && r.confirmed == |set b | b in db.bookings && db.bookings[b].status == Confirmed|
      && r.cancelled == |set b | b in db.bookings && db.bookings[b].status == Cancelled|
      && r.refunded == |set b | b in db.bookings && db.bookings[b].status == Refunded|
  {
    assert db.bookings.Keys == set b | b in db.bookings;
    assert |db.bookings| == |db.bookings.Keys|;
  }

  lemma StatusesPartition(db: Database)
    ensures |db.bookings| == |WithStatus(db, Reserved)| + |WithStatus(db, Confirmed)|
                             + |WithStatus(db, Cancelled)| + |WithStatus(db, Refunded)|
  {
    var open, held := WithStatus(db, Reserved), WithStatus(db, Confirmed);
    var gone, back := WithStatus(db, Cancelled), WithStatus(db, Refunded);
    assert db.bookings.Keys == open + held + gone + back by {
      assert forall b <- db.bookings :: b in open || b in held || b in gone || b in back;
    }
    Sets.FourParts(open, held, gone, back);
    assert |db.bookings| == |db.bookings.Keys|;
  }

  lemma RevenueIsSumOfTotals(c: Catalog, db: Database, outcomes: map<Key, Charge>)
    requires Consistent(c, db, outcomes)
    ensures Sets.Sum(SuccessKeys(db), (k: Key) => AmountOf(db, k)) ==
            Sets.Sum(WithStatus(db, Confirmed) + WithStatus(db, Refunded), (b: BookingId) => TotalOf(db, b))
  {
    var paid := WithStatus(db, Confirmed) + WithStatus(db, Refunded);
    var keys := SuccessKeys(db);
    forall k <- keys
      ensures PayerOf(db, k) in paid && AmountOf(db, k) == TotalOf(db, PayerOf(db, k))
    {
      assert PaymentOk(db, outcomes, k);
      PayerIsPaid(c, db, outcomes, k);
    }
    forall k1, k2 | k1 in keys && k2 in keys && PayerOf(db, k1) == PayerOf(db, k2)
      ensures k1 == k2
    {
      SamePayerSameKey(c, db, outcomes, k1, k2);
    }
    forall b <- paid
      ensures exists k <- keys :: PayerOf(db, k) == b
    {
      PaymentsMatchStatus(c, db, outcomes, b);
      var k :| k in db.payments && Successes(db, b) == PaymentsOf(db, b) == {k};
      assert k in Successes(db, b);
      assert k in keys && PayerOf(db, k) == b;
    }
    Sets.SumPaired(keys, (k: Key) => AmountOf(db, k), paid, (b: BookingId) => TotalOf(db, b),
                   (k: Key) => PayerOf(db, k));
  }

  lemma PayerIsPaid(c: Catalog, db: Database, outcomes: map<Key, Charge>, k: Key)
    requires Consistent(c, db, outcomes) && k in SuccessKeys(db)
    ensures db.payments[k].booking in WithStatus(db, Confirmed) + WithStatus(db, Refunded)
  {
    var b := db.payments[k].booking;
    assert PaymentOk(db, outcomes, k);
    PaymentsMatchStatus(c, db, outcomes, b);
    assert k in Successes(db, b) && k in PaymentsOf(db, b);
  }

  lemma SamePayerSameKey(c: Catalog, db: Database, outcomes: map<Key, Charge>, k1: Key, k2: Key)
    requires Consistent(c, db, outcomes) && k1 in db.payments && k2 in db.payments
    requires db.payments[k1].booking == db.payments[k2].booking
    ensures k1 == k2
  {
    var b := db.payments[k1].booking;
    assert PaymentOk(db, outcomes, k1);
    PaymentsMatchStatus(c, db, outcomes, b);
    var all := PaymentsOf(db, b);
    assert k1 in all && k2 in all;
    var k := Sets.OnlyElement(all);
  }

  // ---------- size of the audit table ----------

  ghost function TrailLength(log: seq<Entry>, b: BookingId): int { |Trail(log, b)| }

  lemma {:induction false} TrailsPartitionTheLog(log: seq<Entry>, ids: set<BookingId>)
    requires forall e <- log :: e.booking in ids
    ensures Sets.Sum(ids, (b: BookingId) => TrailLength(log, b)) == |log|
  {
    var now := (b: BookingId) => TrailLength(log, b);
    if log == [] {
      Sets.SumAtMost(ids, now, 0);
      Sets.SumAtLeast(ids, now, 0);
    } else {
      var front, e := log[..|log| - 1], log[|log| - 1];
      var before := (b: BookingId) => TrailLength(front, b);
      TrailsPartitionTheLog(front, ids);
      assert log == front + [e];
      forall b <- ids {
        TrailAppend(front, e, b);
      }
      Sets.SumSplit(ids, e.booking, now);
      Sets.SumSplit(ids, e.booking, before);
      Sets.SumSame(ids - {e.booking}, now, before);
    }
  }

  /** The audit table never has more than four rows for each booking. */
  lemma AuditIsBounded(c: Catalog, db: Database, outcomes: map<Key, Charge>)
    requires Consistent(c, db, outcomes)
    ensures |db.bookings| <= |db.audit| <= 4 * |db.bookings|
  {
    var ids := db.bookings.Keys;
    var lengths := (b: BookingId) => TrailLength(db.audit, b);
    TrailsPartitionTheLog(db.audit, ids);
    forall b <- ids
      ensures 1 <= lengths(b) <= 4
    {
      assert Told(db, b);
    }
    Sets.SumAtMost(ids, lengths, 4);
    Sets.SumAtLeast(ids, lengths, 1);
  }
}
