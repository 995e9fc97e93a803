/** What users of the service see over whole interleaved runs. */
module Interleavings {
  import opened Domain
  import opened AuditLog
  import opened Serial
  import opened Consistency
  import opened SerialRuns
  import opened Guarantees
  import opened Machine
  import opened MachineSafety
  import opened Refinement
  import opened AdminStats
  import Sets

  /** In every state of every run, replaying a booking's trail gives its status, its
      payments match that status, and the aggregates balance. */
  lemma EveryStateBalances(c: Catalog, tr: seq<Sys>, acts: seq<Act>, n: nat, b: BookingId)
    requires Run(c, tr, acts) && n < |tr| && b in tr[n].db.bookings
    ensures var db, row := tr[n].db, tr[n].db.bookings[b];
      var t := Trail(db.audit, b);
      && Story(b, row.user, t) && t[|t| - 1].next == row.status
      && (forall i | 0 < i < |t| :: t[i].previous == Some(t[i - 1].next))
      && (row.confirmedAt.Some? <==> row.status in {Confirmed, Refunded})
      && (row.cancelledAt.Some? <==> row.status in {Cancelled, Refunded})
      && |PaymentsOf(db, b)| <= 1 && |Successes(db, b)| == (if row.status in {Confirmed, Refunded} then 1 else 0)
      && GetStats(db).revenue == Sets.Sum(WithStatus(db, Confirmed) + WithStatus(db, Refunded),
         (x: BookingId) => TotalOf(db, x))
      && |db.audit| <= 4 * |db.bookings|
  {
    RunIsSafe(c, tr, acts, n);
    var db, outcomes := tr[n].db, tr[n].gateway.outcomes;
    TrailReplays(c, db, outcomes, b);
    PaymentsMatchStatus(c, db, outcomes, b);
    StatsBalance(c, db, outcomes);
    AuditIsBounded(c, db, outcomes);
    if db.bookings[b].status in {Confirmed, Refunded} {
      SuccessRefExists(c, db, outcomes, b);
    } else if db.bookings[b].status == Reserved {
      assert forall k :: k in Successes(db, b) ==> k in PaymentsOf(db, b);
      assert Successes(db, b) == {};
    }
  }

  /** In every state of every run no two rows share a seat of a schedule or a key. */
  lemma RowsAreUnique(c: Catalog, tr: seq<Sys>, acts: seq<Act>, n: nat, b1: BookingId, b2: BookingId)
    requires Run(c, tr, acts) && n < |tr| && b1 in tr[n].db.bookings && b2 in tr[n].db.bookings && b1 != b2
    ensures var x, y := tr[n].db.bookings[b1], tr[n].db.bookings[b2];
      x.key != y.key && (x.schedule != y.schedule || x.seat != y.seat)
  {
    RunIsSafe(c, tr, acts, n);
  }

  /** In every state of every run a row refers to what exists and has the price of its
      compartment, and its payments fit its status. */
  lemma RowsAndPaymentsFit(c: Catalog, tr: seq<Sys>, acts: seq<Act>, n: nat, b: BookingId)
    requires Run(c, tr, acts) && n < |tr| && b in tr[n].db.bookings
    ensures var db, row := tr[n].db, tr[n].db.bookings[b];
      && row.user in c.users && row.schedule in c.schedules && row.seat in c.seats
      && c.seats[row.seat].compartment in c.compartments
      && row.total == (if c.compartments[c.seats[row.seat].compartment].compType == "ac" then 150000 else 80000)
      && (forall k1, k2 | k1 in db.payments && k2 in db.payments
         && db.payments[k1].booking == db.payments[k2].booking == b ::
            k1 == k2)
      && (forall k <- db.payments :: db.payments[k].booking == b ==>
            && db.payments[k].amount == row.total && row.status != Reserved
            && (db.payments[k].charge.Accepted? <==> row.status in {Confirmed, Refunded})
            && k in tr[n].gateway.outcomes && tr[n].gateway.outcomes[k] == db.payments[k].charge)
      && (row.status in {Confirmed, Refunded} ==> exists k <- db.payments :: db.payments[k].booking == b)
  {
    RunIsSafe(c, tr, acts, n);
    RowFits(c, tr[n].db, tr[n].gateway.outcomes, b);
  }

  lemma RowFits(c: Catalog, db: Database, outcomes: map<Key, Charge>, b: BookingId)
    requires Consistent(c, db, outcomes) && b in db.bookings
    ensures RowOk(c, db.bookings[b])
    ensures forall k1, k2 | k1 in db.payments && k2 in db.payments
            && db.payments[k1].booking == db.payments[k2].booking == b ::
              k1 == k2
    ensures forall k <- db.payments :: db.payments[k].booking == b ==>
              && db.payments[k].amount == db.bookings[b].total && db.bookings[b].status != Reserved
              && (db.payments[k].charge.Accepted? <==> db.bookings[b].status in {Confirmed, Refunded})
              && k in outcomes && outcomes[k] == db.payments[k].charge
    ensures db.bookings[b].status in {Confirmed, Refunded} ==> exists k <- db.payments :: db.payments[k].booking == b
  {
    PaymentsMatchStatus(c, db, outcomes, b);
    forall k1, k2 | k1 in db.payments && k2 in db.payments && db.payments[k1].booking == db.payments[k2].booking == b
      ensures k1 == k2
    {
      SamePayerSameKey(c, db, outcomes, k1, k2);
    }
    forall k <- db.payments | db.payments[k].booking == b
      ensures db.payments[k].amount == db.bookings[b].total && db.bookings[b].status != Reserved
      ensures db.payments[k].charge.Accepted? <==> db.bookings[b].status in {Confirmed, Refunded}
      ensures k in outcomes && outcomes[k] == db.payments[k].charge
    {
      assert PaymentOk(db, outcomes, k) && k in PaymentsOf(db, b) && Told(db, b);
    }
  }

  /** In every run a booking changes status at most as often as the rank of its status, so
      at most twice. */
  lemma StatusOnlyClimbs(c: Catalog, tr: seq<Sys>, acts: seq<Act>, b: BookingId, n: nat)
    requires Run(c, tr, acts) && n < |tr| && b in tr[n].db.bookings
    ensures Changes(Seen(tr), b, n) <= Rank(tr[n].db.bookings[b].status) <= 2
  {
    StepsExtend(c, tr, acts);
    ChangesAreRanked(Seen(tr), b, n);
  }

  /** Along a run a booking keeps who booked what, under which key, until when and for how
      much; cancelled and refunded are final, and confirmed leads to refunded only. */
  lemma RowsKeepTheirFacts(c: Catalog, tr: seq<Sys>, acts: seq<Act>, i: nat, j: nat, b: BookingId)
    requires Run(c, tr, acts) && i <= j < |tr| && b in tr[i].db.bookings
    ensures b in tr[j].db.bookings
    ensures var row, row' := tr[i].db.bookings[b], tr[j].db.bookings[b];
      && row'.user == row.user && row'.schedule == row.schedule && row'.seat == row.seat && row'.key == row.key
      && row'.expiresAt == row.expiresAt && row'.total == row.total
      && (row.status in {Cancelled, Refunded} ==> row' == row)
      && (row.status == Confirmed ==> row'.status in {Confirmed, Refunded} && row'.confirmedAt == row.confirmedAt)
  {
    RunOnlyExtends(c, tr, acts, i, j);
    StampsOfRow(c, tr, acts, i, b);
    MovesInColumns(tr[i].db.bookings[b], tr[j].db.bookings[b]);
  }

  lemma MovesInColumns(row: Booking, row': Booking)
    requires Moves(row, row') && Stamped(row)
    ensures row'.user == row.user && row'.schedule == row.schedule && row'.seat == row.seat && row'.key == row.key
    ensures row'.expiresAt == row.expiresAt && row'.total == row.total
    ensures row.status in {Cancelled, Refunded} ==> row' == row
    ensures row.status == Confirmed ==> row'.status in {Confirmed, Refunded} && row'.confirmedAt == row.confirmedAt
  {
  }

  lemma StampsOfRow(c: Catalog, tr: seq<Sys>, acts: seq<Act>, i: nat, b: BookingId)
    requires Run(c, tr, acts) && i < |tr| && b in tr[i].db.bookings
    ensures Stamped(tr[i].db.bookings[b])
  {
    RunIsSafe(c, tr, acts, i);
    assert RowOk(c, tr[i].db.bookings[b]);
  }

  // ---------- create ----------

  /** Once a create with a key has committed, every later create with that key answers with
      its booking and changes nothing. */
  lemma KeyIsAnsweredForever(c: Catalog, tr: seq<Sys>, acts: seq<Act>, i: nat, j: nat, t: TxId, b: BookingId)
    requires Run(c, tr, acts) && i <= j < |acts| && acts[j].Statement? && acts[j].t == t
    requires t in tr[j].txs && tr[j].txs[t].Creating? && tr[j].txs[t].cpc == KeyLookup
    requires HoldsKeyRow(tr[i].db, tr[j].txs[t].a.key, b)
    ensures t in tr[j + 1].txs && tr[j + 1].txs[t] == Done(Found(b)) && Visible(tr[j + 1]) == Visible(tr[j])
  {
    RunOnlyExtends(c, tr, acts, i, j);
    RunIsSafe(c, tr, acts, j);
    assert Step(c, tr[j], acts[j], tr[j + 1]);
    assert Moves(tr[i].db.bookings[b], tr[j].db.bookings[b]);
    assert HoldsKeyRow(tr[j].db, tr[j].txs[t].a.key, b);
    HoldersAreExact(c, tr[j].db, tr[j].gateway.outcomes);
  }

  /** Over a whole run, no key and no seat of a schedule is committed twice: not by racing
      creates, and not after a cancellation or a refund. */
  lemma NoKeyOrSeatCommitsTwice(c: Catalog, tr: seq<Sys>, acts: seq<Act>, i: nat, j: nat, a: CreateArgs, b: CreateArgs)
    requires Run(c, tr, acts) && i < j && CommitsCreate(tr, acts, i, a) && CommitsCreate(tr, acts, j, b)
    ensures a.key != b.key && (a.schedule != b.schedule || a.seat != b.seat)
  {
    RunIsSafe(c, tr, acts, i);
    RunIsSafe(c, tr, acts, j);
    RunOnlyExtends(c, tr, acts, i + 1, j);
    assert Step(c, tr[i], acts[i], tr[i + 1]) && Step(c, tr[j], acts[j], tr[j + 1]);
    var first, second := tr[i].txs[acts[i].t], tr[j].txs[acts[j].t];
    assert Knows(c, tr[i].db, tr[i].gateway, tr[i].clock, first);
    assert Knows(c, tr[j].db, tr[j].gateway, tr[j].clock, second);
    assert first.id in tr[i + 1].db.bookings;
    assert Moves(tr[i + 1].db.bookings[first.id], tr[j].db.bookings[first.id]);
    assert !HoldsKeyRow(tr[j].db, b.key, first.id) && !HoldsSeatRow(tr[j].db, b.schedule, b.seat, first.id);
  }

  // ---------- pay ----------

  /** The gateway decides a key once. Whatever commits abort and whoever retries, the
      decision stays, and every payment row of that key carries it. */
  lemma ChargeIsDecidedOnce(c: Catalog, tr: seq<Sys>, acts: seq<Act>, i: nat, j: nat, key: Key)
    requires Run(c, tr, acts) && i <= j < |tr| && key in tr[i].gateway.outcomes
    ensures key in tr[j].gateway.outcomes && tr[j].gateway.outcomes[key] == tr[i].gateway.outcomes[key]
    ensures key in tr[j].db.payments ==> tr[j].db.payments[key].charge == tr[i].gateway.outcomes[key]
  {
    RunOnlyExtends(c, tr, acts, i, j);
    RunIsSafe(c, tr, acts, j);
    if key in tr[j].db.payments {
      assert PaymentOk(tr[j].db, tr[j].gateway.outcomes, key);
    }
  }

  /** A charge whose commit was lost is picked up by a retry with the same key: if that pay
      commits, it settles the booking with the first decision. */
  lemma RetrySettlesWithFirstDecision(c: Catalog, tr: seq<Sys>, acts: seq<Act>, i: nat, j: nat, t: TxId)
    requires Run(c, tr, acts) && i <= j < |acts| && acts[j].Statement? && acts[j].t == t
    requires t in tr[j].txs && tr[j].txs[t].Paying? && tr[j].txs[t].ppc == CommitPay
    requires tr[j].txs[t].key in tr[i].gateway.outcomes
    ensures var b, first := tr[j].txs[t].b, tr[i].gateway.outcomes[tr[j].txs[t].key];
      b in tr[j + 1].db.bookings && tr[j + 1].db.bookings[b].status == if first.Accepted? then Confirmed else Cancelled
  {
    ChargeIsDecidedOnce(c, tr, acts, i, j, tr[j].txs[t].key);
    RunIsSafe(c, tr, acts, j);
    assert Step(c, tr[j], acts[j], tr[j + 1]);
    assert Knows(c, tr[j].db, tr[j].gateway, tr[j].clock, tr[j].txs[t]);
  }

  // ---------- pay against cleanup ----------

  /** In no reachable state does a booking have both a cleanup entry and a payment, and a
      paid booking was decided no later than its expiry by some pay of the run. */
  lemma PayAndCleanupExclude(c: Catalog, tr: seq<Sys>, acts: seq<Act>, n: nat, b: BookingId)
    requires Run(c, tr, acts) && n <= |acts| && b in tr[n].db.bookings
    ensures ExpireEntry(b) in tr[n].db.audit ==> PaymentsOf(tr[n].db, b) == {}
    ensures tr[n].db.bookings[b].status in {Confirmed, Refunded} ==> exists op <- Ops(tr, acts, n) ::
              op.PayOp? && op.b == b && op.charge.Accepted?
              && (tr[n].db.bookings[b].expiresAt.Some? ==> op.decided <= tr[n].db.bookings[b].expiresAt.value)
    ensures ExpireEntry(b) in tr[n].db.audit ==> exists op <- Ops(tr, acts, n) ::
              op.SweepOp? && b in op.ids && tr[n].db.bookings[b].expiresAt.Some?
              && tr[n].db.bookings[b].expiresAt.value < op.cutoff
  {
    RunIsSafe(c, tr, acts, n);
    RunIsSerial(c, tr, acts, n);
    var states, ops := Visibles(tr, acts, n), Ops(tr, acts, n);
    if ExpireEntry(b) in tr[n].db.audit {
      forall k | k in tr[n].db.payments
        ensures k !in PaymentsOf(tr[n].db, b)
      {
        if k in PaymentsOf(tr[n].db, b) {
          PaidNeverExpires(c, tr[n].db, tr[n].gateway.outcomes, b, k);
        }
      }
      assert forall k :: k !in PaymentsOf(tr[n].db, b);
      TrailFinds(tr[n].db.audit, ExpireEntry(b));
      var i := SweptLate(c, states, ops, |ops|, b);
      assert ops[i] in ops;
    }
    if tr[n].db.bookings[b].status in {Confirmed, Refunded} {
      var i := PaidInTime(c, states, ops, |ops|, b);
      assert ops[i] in ops;
    }
  }

  // ---------- refund ----------

  /** Every refunded booking of a run was refunded by a refund that decided at least an hour
      before its train departs. */
  lemma RefundsAreInTime(c: Catalog, tr: seq<Sys>, acts: seq<Act>, n: nat, b: BookingId)
    requires Run(c, tr, acts) && n <= |acts| && b in tr[n].db.bookings && tr[n].db.bookings[b].status == Refunded
    ensures tr[n].db.bookings[b].schedule in c.schedules
    ensures exists op <- Ops(tr, acts, n) ::
              op.RefundOp? && op.b == b && c.schedules[tr[n].db.bookings[b].schedule].departure >= op.decided + 3600
  {
    RunIsSerial(c, tr, acts, n);
    var states, ops := Visibles(tr, acts, n), Ops(tr, acts, n);
    var i := RefundedInTime(c, states, ops, |ops|, b);
    assert ops[i] in ops;
  }

  /** When a refund commits, the gateway has been called with the reference of the one
      successful payment of that booking. */
  lemma RefundIsBackedByCall(c: Catalog, s: Sys, t: TxId)
    requires Safe(c, s) && t in s.txs && s.txs[t].Refunding? && s.txs[t].rpc == CommitRefund
    ensures var b := s.txs[t].b;
      exists k :: Successes(s.db, b) == {k} && k in s.db.payments && s.db.payments[k].charge.Accepted?
                  && s.db.payments[k].charge.ref in s.gateway.refunds
  {
    var tx := s.txs[t];
    assert Knows(c, s.db, s.gateway, s.clock, tx);
    PaymentsMatchStatus(c, s.db, s.gateway.outcomes, tx.b);
    var k :| k in s.db.payments && Successes(s.db, tx.b) == PaymentsOf(s.db, tx.b) == {k};
    assert k in Successes(s.db, tx.b) && AnyKey(Successes(s.db, tx.b)) == Some(k);
  }
}
