/** The administrator's aggregates as they are read: five statements, each on the tables
    committed at its moment. */
module StatsReads {
  import opened Domain
  import opened Machine
  import opened MachineSafety
  import opened Refinement
  import opened AdminStats
  import Sets

  /** The positions in the run at which the statements read, in the order of the code. */
  datatype Reads = Reads(total: nat, confirmed: nat, revenue: nat, cancelled: nat, refunded: nat)

  predicate InOrder(at: Reads, n: nat) {
    at.total <= at.confirmed <= at.revenue <= at.cancelled <= at.refunded < n
  }

  ghost function Reported(tr: seq<Sys>, at: Reads): Stats
    requires InOrder(at, |tr|)
  {
    Stats(|tr[at.total].db.bookings|, |Confirmeds(tr, at)|, |Cancelleds(tr, at)|, |Refundeds(tr, at)|,
          GetStats(tr[at.revenue].db).revenue)
  }

  ghost function Confirmeds(tr: seq<Sys>, at: Reads): set<BookingId>
    requires InOrder(at, |tr|)
  {
    WithStatus(tr[at.confirmed].db, Confirmed)
  }

  ghost function Cancelleds(tr: seq<Sys>, at: Reads): set<BookingId>
    requires InOrder(at, |tr|)
  {
    WithStatus(tr[at.cancelled].db, Cancelled)
  }

  ghost function Refundeds(tr: seq<Sys>, at: Reads): set<BookingId>
    requires InOrder(at, |tr|)
  {
    WithStatus(tr[at.refunded].db, Refunded)
  }

  /** Bookings committed between the first read and the last. */
  ghost function Born(tr: seq<Sys>, at: Reads): set<BookingId>
    requires InOrder(at, |tr|)
  {
    tr[at.refunded].db.bookings.Keys - tr[at.total].db.bookings.Keys
  }

  /** Bookings refunded between the read of the confirmed ones and the last. */
  ghost function Twice(tr: seq<Sys>, at: Reads): set<BookingId>
    requires InOrder(at, |tr|)
  {
    Confirmeds(tr, at) * Refundeds(tr, at)
  }

  /** Bookings that no read of a status counts. */
  ghost function Uncounted(tr: seq<Sys>, at: Reads): set<BookingId>
    requires InOrder(at, |tr|)
  {
    tr[at.refunded].db.bookings.Keys - Confirmeds(tr, at) - Cancelleds(tr, at) - Refundeds(tr, at)
  }

  lemma ReadsAreNested(c: Catalog, tr: seq<Sys>, acts: seq<Act>, at: Reads, b: BookingId)
    requires Run(c, tr, acts) && InOrder(at, |tr|)
    ensures b in Confirmeds(tr, at) ==> b !in Cancelleds(tr, at) && b in tr[at.refunded].db.bookings
    ensures b in Cancelleds(tr, at) ==> b !in Refundeds(tr, at) && b in tr[at.refunded].db.bookings
    ensures b in tr[at.total].db.bookings ==> b in tr[at.refunded].db.bookings
  {
    RunOnlyExtends(c, tr, acts, at.total, at.confirmed);
    RunOnlyExtends(c, tr, acts, at.confirmed, at.cancelled);
    RunOnlyExtends(c, tr, acts, at.cancelled, at.refunded);
  }

  lemma Counting(all: set<BookingId>, x: set<BookingId>, y: set<BookingId>, z: set<BookingId>)
    requires x <= all && y <= all && z <= all && x !! y && y !! z
    ensures |x| + |y| + |z| + |all - x - y - z| == |all| + |x * z|
  {
    assert |x + z| == |x| + |z| - |x * z|;
    assert |x + z + y| == |x + z| + |y|;
    Sets.Parts(all, x + z + y);
    assert all - x - y - z == all - (x + z + y);
  }

  /** Theorem: however commits fall between the five reads, the revenue is that of the moment
      it was read, and the counts miss the total by exactly the bookings born meanwhile, those
      refunded meanwhile, which are counted twice, and those that no read counts. */
  lemma ReportedExactly(c: Catalog, tr: seq<Sys>, acts: seq<Act>, at: Reads)
    requires Run(c, tr, acts) && InOrder(at, |tr|)
    ensures var r, db := Reported(tr, at), tr[at.revenue].db;
      && r.revenue == Sets.Sum(WithStatus(db, Confirmed) + WithStatus(db, Refunded), (b: BookingId) => TotalOf(db, b))
      && r.confirmed + r.cancelled + r.refunded + |Uncounted(tr, at)| == r.total + |Born(tr, at)| + |Twice(tr, at)|
  {
    RunIsSafe(c, tr, acts, at.revenue);
    RevenueIsSumOfTotals(c, tr[at.revenue].db, tr[at.revenue].gateway.outcomes);
    ReportedCounts(c, tr, acts, at);
  }

  /** The report in the columns of the tables, each read at its moment. */
  lemma ReportInColumns(tr: seq<Sys>, at: Reads)
    requires InOrder(at, |tr|)
    ensures var r := Reported(tr, at);
      && r.total == |set b | b in tr[at.total].db.bookings|
      && r.confirmed == |set b | b in tr[at.confirmed].db.bookings
         && tr[at.confirmed].db.bookings[b].status == Confirmed|
      && r.cancelled == |set b | b in tr[at.cancelled].db.bookings
         && tr[at.cancelled].db.bookings[b].status == Cancelled|
      && r.refunded == |set b | b in tr[at.refunded].db.bookings && tr[at.refunded].db.bookings[b].status == Refunded|
  {
    StatsInColumns(tr[at.total].db);
    StatsInColumns(tr[at.confirmed].db);
    StatsInColumns(tr[at.cancelled].db);
    StatsInColumns(tr[at.refunded].db);
  }

  lemma ReportedCounts(c: Catalog, tr: seq<Sys>, acts: seq<Act>, at: Reads)
    requires Run(c, tr, acts) && InOrder(at, |tr|)
    ensures var r := Reported(tr, at);
      r.confirmed + r.cancelled + r.refunded + |Uncounted(tr, at)| == r.total + |Born(tr, at)| + |Twice(tr, at)|
  {
    var first, all := tr[at.total].db.bookings.Keys, tr[at.refunded].db.bookings.Keys;
    forall b: BookingId
      ensures b in Confirmeds(tr, at) ==> b !in Cancelleds(tr, at) && b in all
      ensures b in Cancelleds(tr, at) ==> b !in Refundeds(tr, at) && b in all
      ensures b in first ==> b in all
    {
      ReadsAreNested(c, tr, acts, at, b);
    }
    Sets.Contained(first, all);
    Sets.Contained(Confirmeds(tr, at), all);
    Sets.Contained(Cancelleds(tr, at), all);
    Sets.Contained(Refundeds(tr, at), all);
    Counting(all, Confirmeds(tr, at), Cancelleds(tr, at), Refundeds(tr, at));
    Sets.Parts(all, first);
  }

  /** When nothing commits between the reads, the report is that of one state, and balances. */
  lemma StillReportBalances(c: Catalog, tr: seq<Sys>, acts: seq<Act>, at: Reads)
    requires Run(c, tr, acts) && InOrder(at, |tr|)
    requires forall i | at.total <= i <= at.refunded :: tr[i].db == tr[at.total].db
    ensures var r, db := Reported(tr, at), tr[at.total].db;
      r == GetStats(db) && r.total == |WithStatus(db, Reserved)| + r.confirmed + r.cancelled + r.refunded
  {
    RunIsSafe(c, tr, acts, at.total);
    StatsBalance(c, tr[at.total].db, tr[at.total].gateway.outcomes);
  }
}
