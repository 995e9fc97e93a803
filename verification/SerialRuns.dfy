/** What holds along whole serial runs. */
module SerialRuns {
  import opened Domain
  import opened AuditLog
  import opened Serial
  import opened Consistency
  import Sets

  // ---------- what a run never undoes ----------

  function Rank(s: Status): nat {
    match s
    case Reserved => 0
    case Confirmed => 1
    case Cancelled => 2
    case Refunded => 2
  }

  /** The status machine: a row keeps its identity, its hold and its price, and its status
      changes only to one of higher rank; Cancelled and Refunded are final. */
  predicate Moves(row: Booking, row': Booking) {
    && row' == row.(status := row'.status, confirmedAt := row'.confirmedAt, cancelledAt := row'.cancelledAt)
    && (row' == row || Rank(row.status) < Rank(row'.status))
    && (row.status == Confirmed ==> row'.status in {Confirmed, Refunded})
    && (row.confirmedAt.Some? ==> row'.confirmedAt == row.confirmedAt)
  }

  ghost predicate Extends(s: State, s': State) {
    && (forall b <- s.db.bookings :: b in s'.db.bookings && Moves(s.db.bookings[b], s'.db.bookings[b]))
    && (forall k <- s.db.payments :: k in s'.db.payments && s'.db.payments[k] == s.db.payments[k])
    && (forall k <- s.gateway.outcomes :: k in s'.gateway.outcomes && s'.gateway.outcomes[k] == s.gateway.outcomes[k])
    && s.db.audit <= s'.db.audit && s.gateway.refunds <= s'.gateway.refunds && s.clock <= s'.clock
  }

  lemma {:induction false} SweepOnlyAppends(db: Database, ids: seq<BookingId>, cutoff: Time)
    requires Sweepable(db, ids, cutoff)
    ensures db.audit <= Sweep(db, ids, cutoff).audit
  {
    if ids != [] {
      SweepOnlyAppends(db, ids[..|ids| - 1], cutoff);
    }
  }

  lemma CreateExtends(c: Catalog, s: State, op: Op)
    requires Consistent(c, s.db, s.gateway.outcomes) && op.CreateOp? && Enabled(c, s, op)
    ensures Extends(s, Exec(c, s, op))
  {
    CreatedMeansFree(c, s.db, s.gateway.outcomes, op.a, op.hits);
    assert Exec(c, s, op).db == CreateWrite(c, s.db, op.a, None, op.at, op.id);
  }

  lemma PayExtends(c: Catalog, s: State, op: Op)
    requires Consistent(c, s.db, s.gateway.outcomes) && op.PayOp? && Enabled(c, s, op)
    ensures Extends(s, Exec(c, s, op))
  {
    assert Exec(c, s, op).db == PayWrite(s.db, op.b, op.user, op.key, op.charge, op.paid);
  }

  lemma RefundExtends(c: Catalog, s: State, op: Op)
    requires Consistent(c, s.db, s.gateway.outcomes) && op.RefundOp? && Enabled(c, s, op)
    ensures Extends(s, Exec(c, s, op))
  {
    assert Exec(c, s, op).db == RefundWrite(s.db, op.b, op.user, op.done);
  }

  lemma SweepExtends(c: Catalog, s: State, op: Op)
    requires op.SweepOp? && Enabled(c, s, op)
    ensures Extends(s, Exec(c, s, op))
  {
    SweepEffect(s.db, op.ids, op.cutoff);
    SweepOnlyAppends(s.db, op.ids, op.cutoff);
  }

  lemma OpExtends(c: Catalog, s: State, op: Op)
    requires Consistent(c, s.db, s.gateway.outcomes) && Enabled(c, s, op)
    ensures Extends(s, Exec(c, s, op))
  {
    match op
    case CreateOp(_, _, _, _) => CreateExtends(c, s, op);
    case PayOp(_, _, _, _, _, _) => PayExtends(c, s, op);
    case RefundOp(_, _, _, _) => RefundExtends(c, s, op);
    case SweepOp(_, _) => SweepExtends(c, s, op);
    case _ =>
  }

  lemma ExtendsIsTransitive(s: State, t: State, u: State)
    requires Extends(s, t) && Extends(t, u)
    ensures Extends(s, u)
  {
    forall b <- s.db.bookings
      ensures b in u.db.bookings && Moves(s.db.bookings[b], u.db.bookings[b])
    {
      assert Moves(s.db.bookings[b], t.db.bookings[b]) && Moves(t.db.bookings[b], u.db.bookings[b]);
    }
  }

  lemma {:induction false} ExtendsChain(states: seq<State>, i: nat, j: nat)
    requires i <= j < |states| && forall k | i <= k < j :: Extends(states[k], states[k + 1])
    ensures Extends(states[i], states[j])
    decreases j
  {
    if i < j {
      ExtendsChain(states, i, j - 1);
      ExtendsIsTransitive(states[i], states[j - 1], states[j]);
    }
  }

  /** Bookings, payments, gateway outcomes and audit rows are permanent along a run. */
  lemma RunExtends(c: Catalog, states: seq<State>, ops: seq<Op>, i: nat, j: nat)
    requires SerialRun(c, states, ops) && i <= j < |states|
    ensures Extends(states[i], states[j])
  {
    forall k | i <= k < j
      ensures Extends(states[k], states[k + 1])
    {
      RunKeeps(c, states, ops, k);
      OpExtends(c, states[k], ops[k]);
    }
    ExtendsChain(states, i, j);
  }

  /** How often the status of b changed before state n. */
  ghost function Changes(states: seq<State>, b: BookingId, n: nat): nat
    requires n < |states|
  {
    if n == 0 then 0
    else
      var before, after := states[n - 1].db.bookings, states[n].db.bookings;
      Changes(states, b, n - 1) + if b in before && b in after && before[b].status != after[b].status then 1 else 0
  }

  lemma {:induction false} ChangesAreRanked(states: seq<State>, b: BookingId, n: nat)
    requires n < |states| && b !in states[0].db.bookings
    requires forall k | 0 <= k < n :: Extends(states[k], states[k + 1])
    ensures b in states[n].db.bookings ==> Changes(states, b, n) <= Rank(states[n].db.bookings[b].status) <= 2
    ensures b !in states[n].db.bookings ==> Changes(states, b, n) == 0
  {
    if n > 0 {
      ChangesAreRanked(states, b, n - 1);
      assert Extends(states[n - 1], states[n]);
    }
  }

  /** A booking changes status at most as often as its rank says, so at most twice. */
  lemma StatusChangesAreRanked(c: Catalog, states: seq<State>, ops: seq<Op>, b: BookingId, n: nat)
    requires SerialRun(c, states, ops) && n < |states|
    ensures b in states[n].db.bookings ==> Changes(states, b, n) <= Rank(states[n].db.bookings[b].status) <= 2
    ensures b !in states[n].db.bookings ==> Changes(states, b, n) == 0
  {
    forall k | 0 <= k < n
      ensures Extends(states[k], states[k + 1])
    {
      RunExtends(c, states, ops, k, k + 1);
    }
    ChangesAreRanked(states, b, n);
  }

  // ---------- how a booking got its status ----------

  predicate Paid(status: Status) { status in {Confirmed, Refunded} }

  lemma PaidByPay(c: Catalog, s: State, op: Op, b: BookingId)
    requires Consistent(c, s.db, s.gateway.outcomes) && Enabled(c, s, op)
    requires var after := Exec(c, s, op).db.bookings; b in after && Paid(after[b].status)
    requires !(b in s.db.bookings && Paid(s.db.bookings[b].status))
    ensures op.PayOp? && op.b == b && op.charge.Accepted? && !Expired(Exec(c, s, op).db.bookings[b], op.decided)
  {
    if op.SweepOp? {
      SweepEffect(s.db, op.ids, op.cutoff);
    }
  }

  ghost predicate PaidAt(states: seq<State>, b: BookingId, n: int) {
    0 <= n < |states| && b in states[n].db.bookings && Paid(states[n].db.bookings[b].status)
  }

  /** Every paid booking was settled by a pay that decided no later than its expiry. */
  lemma PaidInTime(c: Catalog, states: seq<State>, ops: seq<Op>, n: nat, b: BookingId) returns (i: nat)
    requires SerialRun(c, states, ops) && n < |states|
    requires b in states[n].db.bookings && Paid(states[n].db.bookings[b].status)
    ensures i < n && ops[i].PayOp? && ops[i].b == b && ops[i].charge.Accepted?
    ensures var expiry := states[n].db.bookings[b].expiresAt; expiry.Some? ==> ops[i].decided <= expiry.value
  {
    i := Sets.Turn(k => PaidAt(states, b, k), n);
    RunKeeps(c, states, ops, i);
    PaidByPay(c, states[i], ops[i], b);
    RowMoves(c, states, ops, i + 1, n, b);
  }

  lemma RowMoves(c: Catalog, states: seq<State>, ops: seq<Op>, i: nat, n: nat, b: BookingId)
    requires SerialRun(c, states, ops) && i <= n < |states| && b in states[i].db.bookings
    ensures b in states[n].db.bookings && Moves(states[i].db.bookings[b], states[n].db.bookings[b])
  {
    RunExtends(c, states, ops, i, n);
  }

  ghost predicate SweptAt(states: seq<State>, b: BookingId, n: int) {
    0 <= n < |states| && ExpireEntry(b) in Trail(states[n].db.audit, b)
  }

  /** Every booking with a cleanup entry was swept by a pass whose cutoff lies strictly after its expiry. */
  lemma SweptLate(c: Catalog, states: seq<State>, ops: seq<Op>, n: nat, b: BookingId) returns (i: nat)
    requires SerialRun(c, states, ops) && n < |states| && ExpireEntry(b) in Trail(states[n].db.audit, b)
    ensures i < n && ops[i].SweepOp? && b in ops[i].ids
    ensures b in states[n].db.bookings
    ensures var expiry := states[n].db.bookings[b].expiresAt; expiry.Some? && expiry.value < ops[i].cutoff
  {
    i := Sets.Turn(k => SweptAt(states, b, k), n);
    RunKeeps(c, states, ops, i);
    OpAddsExpireOnlyBySweep(c, states[i], ops[i], b);
    RowMoves(c, states, ops, i, n, b);
  }

  lemma RefundedByRefund(c: Catalog, s: State, op: Op, b: BookingId)
    requires Consistent(c, s.db, s.gateway.outcomes) && Enabled(c, s, op)
    requires b in s.db.bookings && b in Exec(c, s, op).db.bookings
    requires s.db.bookings[b].status != Refunded && Exec(c, s, op).db.bookings[b].status == Refunded
    ensures op.RefundOp? && op.b == b && s.db.bookings[b].status == Confirmed
    ensures s.db.bookings[b].schedule in c.schedules
    ensures c.schedules[s.db.bookings[b].schedule].departure >= op.decided + 3600
  {
    if op.SweepOp? {
      SweepEffect(s.db, op.ids, op.cutoff);
    }
  }

  ghost predicate RefundedAt(states: seq<State>, b: BookingId, n: int) {
    0 <= n < |states| && b in states[n].db.bookings && states[n].db.bookings[b].status == Refunded
  }

  /** Every refunded booking was refunded by a refund that decided at least an hour before its
      train departs. */
  lemma RefundedInTime(c: Catalog, states: seq<State>, ops: seq<Op>, n: nat, b: BookingId) returns (i: nat)
    requires SerialRun(c, states, ops) && n < |states|
    requires b in states[n].db.bookings && states[n].db.bookings[b].status == Refunded
    ensures i < n && ops[i].RefundOp? && ops[i].b == b && states[n].db.bookings[b].schedule in c.schedules
    ensures c.schedules[states[n].db.bookings[b].schedule].departure >= ops[i].decided + 3600
  {
    i := Sets.Turn(k => RefundedAt(states, b, k), n);
    RunKeeps(c, states, ops, i);
    NewRowsAreReserved(c, states[i], ops[i], b);
    RefundedByRefund(c, states[i], ops[i], b);
    RowMoves(c, states, ops, i, n, b);
  }

  lemma NewRowsAreReserved(c: Catalog, s: State, op: Op, b: BookingId)
    requires Consistent(c, s.db, s.gateway.outcomes) && Enabled(c, s, op) && b in Exec(c, s, op).db.bookings
    ensures b in s.db.bookings || Exec(c, s, op).db.bookings[b].status == Reserved
  {
    if op.CreateOp? {
      CreatedMeansFree(c, s.db, s.gateway.outcomes, op.a, op.hits);
    }
  }

  /** What an operation other than a sweep adds to the audit table. */
  ghost function NewEntries(op: Op): seq<Entry> {
    match op
    case CreateOp(a, hits, at, id) => [ReserveEntry(id, a.user)]
    case PayOp(b, user, key, charge, decided, paid) => [AttemptEntry(b, user), SettleEntry(b, user, charge.Accepted?)]
    case RefundOp(b, user, decided, done) => [RefundEntry(b, user)]
    case _ => []
  }

  lemma OpAddsEntries(c: Catalog, s: State, op: Op)
    requires Consistent(c, s.db, s.gateway.outcomes) && Enabled(c, s, op) && !op.SweepOp?
    ensures Exec(c, s, op).db.audit == s.db.audit + NewEntries(op)
  {
  }

  lemma OpAddsExpireOnlyBySweep(c: Catalog, s: State, op: Op, b: BookingId)
    requires Consistent(c, s.db, s.gateway.outcomes) && Enabled(c, s, op)
    requires ExpireEntry(b) in Trail(Exec(c, s, op).db.audit, b) && ExpireEntry(b) !in Trail(s.db.audit, b)
    ensures op.SweepOp? && b in op.ids
  {
    TrailOnlyOf(Exec(c, s, op).db.audit, b);
    if ExpireEntry(b) in s.db.audit {
      TrailFinds(s.db.audit, ExpireEntry(b));
    }
    if op.SweepOp? {
      SweepAddsOwnEntries(s.db, op.ids, op.cutoff);
    } else {
      OpAddsEntries(c, s, op);
    }
  }

  lemma {:induction false} SweepAddsOwnEntries(db: Database, ids: seq<BookingId>, cutoff: Time)
    requires Sweepable(db, ids, cutoff)
    ensures forall e <- Sweep(db, ids, cutoff).audit :: e in db.audit || e.booking in ids
  {
    if ids != [] {
      SweepAddsOwnEntries(db, ids[..|ids| - 1], cutoff);
    }
  }

  // ---------- journeys ----------

  /** If the operation is a create of the user, its overlap query gave the answer it has in
      the state it commits to. */
  ghost predicate SeesCurrent(c: Catalog, s: State, op: Op, user: UserId) {
    op.CreateOp? && op.a.user == user ==> op.hits == OverlapHits(c, s.db, user, op.a.schedule)
  }

  /** A create keeps its user's journeys disjoint exactly when the overlap query is empty in
      the state it commits to, whatever the query had answered earlier. */
  lemma CreateKeepsJourneysExactly(c: Catalog, db: Database, a: CreateArgs, now: Time, id: BookingId)
    requires c.Valid() && a.seat in c.seats && a.schedule in c.schedules
    requires id !in db.bookings && DisjointFor(c, db, a.user)
    ensures DisjointFor(c, CreateWrite(c, db, a, None, now, id), a.user) <==>
            OverlapHits(c, db, a.user, a.schedule) == {}
  {
    var db' := CreateWrite(c, db, a, None, now, id);
    var hits := OverlapHits(c, db, a.user, a.schedule);
    if hits == {} {
      forall b1, b2 | b1 in db'.bookings && b2 in db'.bookings && b1 != b2 && InUse(db'.bookings[b1], a.user)
        ensures !OverlapHit(c, db'.bookings[b2], a.user, db'.bookings[b1].schedule)
      {
        assert b1 !in hits && b2 !in hits;
      }
    } else {
      var b := Sets.Pick(hits);
      assert b != id && OverlapHit(c, db'.bookings[b], a.user, db'.bookings[id].schedule);
    }
  }

  /** A create of another user does not touch the user's journeys. */
  lemma OthersKeepJourneys(c: Catalog, db: Database, a: CreateArgs, now: Time, id: BookingId, user: UserId)
    requires c.Valid() && a.seat in c.seats && id !in db.bookings && a.user != user && DisjointFor(c, db, user)
    ensures DisjointFor(c, CreateWrite(c, db, a, None, now, id), user)
  {
    var db' := CreateWrite(c, db, a, None, now, id);
    forall b1, b2 | b1 in db'.bookings && b2 in db'.bookings && b1 != b2 && InUse(db'.bookings[b1], user)
      ensures !OverlapHit(c, db'.bookings[b2], user, db'.bookings[b1].schedule)
    {
      assert b1 != id;
    }
  }

  lemma OpKeepsJourneys(c: Catalog, s: State, op: Op, user: UserId)
    requires Consistent(c, s.db, s.gateway.outcomes) && Enabled(c, s, op) && SeesCurrent(c, s, op, user)
    requires DisjointFor(c, s.db, user)
    ensures DisjointFor(c, Exec(c, s, op).db, user)
  {
    if op.CreateOp? {
      CreatedMeansFree(c, s.db, s.gateway.outcomes, op.a, op.hits);
      if op.a.user == user {
        CreateKeepsJourneysExactly(c, s.db, op.a, op.at, op.id);
      } else {
        OthersKeepJourneys(c, s.db, op.a, op.at, op.id, user);
      }
    } else {
      OpExtends(c, s, op);
      FewerActive(c, s.db, Exec(c, s, op).db, user);
    }
  }

  /** No row is added and no row becomes active again. */
  lemma FewerActive(c: Catalog, db: Database, db': Database, user: UserId)
    requires DisjointFor(c, db, user) && db'.bookings.Keys == db.bookings.Keys
    requires forall b <- db.bookings :: Moves(db.bookings[b], db'.bookings[b])
    ensures DisjointFor(c, db', user)
  {
    forall b1, b2 | b1 in db'.bookings && b2 in db'.bookings && b1 != b2 && InUse(db'.bookings[b1], user)
      ensures !OverlapHit(c, db'.bookings[b2], user, db'.bookings[b1].schedule)
    {
      assert Moves(db.bookings[b1], db'.bookings[b1]) && Moves(db.bookings[b2], db'.bookings[b2]);
      assert !OverlapHit(c, db.bookings[b2], user, db.bookings[b1].schedule);
    }
  }

  lemma {:induction false} RunKeepsJourneys(c: Catalog, states: seq<State>, ops: seq<Op>, n: nat, user: UserId)
    requires SerialRun(c, states, ops) && n < |states|
    requires forall i | 0 <= i < |ops| :: SeesCurrent(c, states[i], ops[i], user)
    ensures DisjointFor(c, states[n].db, user)
  {
    if n > 0 {
      RunKeepsJourneys(c, states, ops, n - 1, user);
      RunKeeps(c, states, ops, n - 1);
      OpKeepsJourneys(c, states[n - 1], ops[n - 1], user);
    }
  }
}
