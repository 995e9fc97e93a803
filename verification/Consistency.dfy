/** Every atomic operation keeps the tables consistent, so every state of a serial run is. */
module Consistency {
  import opened Domain
  import opened AuditLog
  import opened Serial

  lemma HoldersAreExact(c: Catalog, db: Database, outcomes: map<Key, Charge>)
    requires Consistent(c, db, outcomes)
    ensures forall k, b | HoldsKeyRow(db, k, b) :: KeyHolder(db, k) == Some(b)
    ensures forall sc, st, b | HoldsSeatRow(db, sc, st, b) :: SeatHolder(db, sc, st) == Some(b)
  {
    forall k, b | HoldsKeyRow(db, k, b)
      ensures KeyHolder(db, k) == Some(b)
    {
      var other := KeyHolder(db, k).value;
      assert HoldsKeyRow(db, k, other);
    }
    forall sc, st, b | HoldsSeatRow(db, sc, st, b)
      ensures SeatHolder(db, sc, st) == Some(b)
    {
      var other := SeatHolder(db, sc, st).value;
      assert HoldsSeatRow(db, sc, st, other);
    }
  }

  /** Every booking row has an audit row, which the schema does not let go of. */
  lemma EveryBookingHasChildren(c: Catalog, db: Database, outcomes: map<Key, Charge>, b: BookingId)
    requires Consistent(c, db, outcomes) && b in db.bookings
    ensures HasChildren(db, b)
  {
    var t := Trail(db.audit, b);
    assert Told(db, b) && t[0] in t;
    TrailOnlyOf(db.audit, b);
  }

  lemma FirstIsIn(t: seq<Entry>)
    requires t != []
    ensures t[0] in t
  {
  }

  lemma FreshHasEmptyTrail(c: Catalog, db: Database, outcomes: map<Key, Charge>, b: BookingId)
    requires Consistent(c, db, outcomes) && b !in db.bookings
    ensures Trail(db.audit, b) == [] && PaymentsOf(db, b) == {}
  {
    if Trail(db.audit, b) != [] {
      FirstIsIn(Trail(db.audit, b));
      TrailOnlyOf(db.audit, b);
    }
    assert forall k <- db.payments :: PaymentOk(db, outcomes, k) && k !in PaymentsOf(db, b);
    assert forall k :: k !in PaymentsOf(db, b);
  }

  /** A booking whose row, trail and payments are as before is still told. */
  lemma ToldFrame(db: Database, db': Database, b: BookingId)
    requires b in db.bookings && b in db'.bookings && Told(db, b)
    requires db'.bookings[b] == db.bookings[b]
    requires Trail(db'.audit, b) == Trail(db.audit, b)
    requires PaymentsOf(db', b) == PaymentsOf(db, b)
    requires forall k <- PaymentsOf(db, b) :: db'.payments[k] == db.payments[k]
    ensures Told(db', b)
  {
  }

  lemma CreatedIsTold(c: Catalog, db: Database, a: CreateArgs, now: Time, id: BookingId, b: BookingId)
    requires c.Valid() && a.seat in c.seats && id !in db.bookings
    requires b == id || (b in db.bookings && Told(db, b))
    requires Trail(db.audit, id) == [] && PaymentsOf(db, id) == {}
    ensures Told(CreateWrite(c, db, a, None, now, id), b)
  {
    var db' := CreateWrite(c, db, a, None, now, id);
    TrailAppend(db.audit, ReserveEntry(id, a.user), b);
    assert PaymentsOf(db', b) == PaymentsOf(db, b);
    if b != id {
      ToldFrame(db, db', b);
    }
  }

  lemma CreatedIsUnique(c: Catalog, db: Database, a: CreateArgs, now: Time, id: BookingId)
    requires c.Valid() && a.seat in c.seats && SeatsUnique(db) && KeysUnique(db)
    requires KeyHolder(db, a.key).None? && SeatHolder(db, a.schedule, a.seat).None?
    ensures var db' := CreateWrite(c, db, a, None, now, id); SeatsUnique(db') && KeysUnique(db')
  {
    assert forall b <- db.bookings :: !HoldsKeyRow(db, a.key, b) && !HoldsSeatRow(db, a.schedule, a.seat, b);
  }

  lemma CreateKeeps(c: Catalog, db: Database, outcomes: map<Key, Charge>, a: CreateArgs, now: Time, id: BookingId)
    requires Consistent(c, db, outcomes) && id !in db.bookings
    requires a.user in c.users && a.schedule in c.schedules && a.seat in c.seats
    requires KeyHolder(db, a.key).None? && SeatHolder(db, a.schedule, a.seat).None?
    ensures Consistent(c, CreateWrite(c, db, a, None, now, id), outcomes)
  {
    var db' := CreateWrite(c, db, a, None, now, id);
    CreatedIsUnique(c, db, a, now, id);
    FreshHasEmptyTrail(c, db, outcomes, id);
    forall b <- db'.bookings
      ensures RowOk(c, db'.bookings[b]) && Told(db', b)
    {
      CreatedIsTold(c, db, a, now, id, b);
    }
    forall k <- db'.payments
      ensures PaymentOk(db', outcomes, k)
    {
      assert PaymentOk(db, outcomes, k);
    }
  }

  lemma SettledIsTold(db: Database, b: BookingId, key: Key, charge: Charge, now: Time)
    requires b in db.bookings && db.bookings[b].status == Reserved && Told(db, b)
    requires key !in db.payments
    ensures Told(PayWrite(db, b, db.bookings[b].user, key, charge, now), b)
  {
    var user := db.bookings[b].user;
    var db' := PayWrite(db, b, user, key, charge, now);
    TrailAppend2(db.audit, AttemptEntry(b, user), SettleEntry(b, user, charge.Accepted?), b);
    assert PaymentsOf(db', b) == {key};
  }

  lemma PayKeeps(c: Catalog, db: Database, outcomes: map<Key, Charge>, b: BookingId, user: UserId, key: Key, now: Time)
    requires Consistent(c, db, outcomes)
    requires b in db.bookings && db.bookings[b].status == Reserved && db.bookings[b].user == user
    requires key !in db.payments && key in outcomes
    ensures Consistent(c, PayWrite(db, b, user, key, outcomes[key], now), outcomes)
  {
    var charge := outcomes[key];
    var db' := PayWrite(db, b, user, key, charge, now);
    forall x <- db'.bookings
      ensures RowOk(c, db'.bookings[x]) && Told(db', x)
    {
      assert RowOk(c, db.bookings[x]) && Told(db, x);
      if x == b {
        SettledIsTold(db, b, key, charge, now);
      } else {
        TrailAppend2(db.audit, AttemptEntry(b, user), SettleEntry(b, user, charge.Accepted?), x);
        assert PaymentsOf(db', x) == PaymentsOf(db, x);
        ToldFrame(db, db', x);
      }
    }
    forall k <- db'.payments
      ensures PaymentOk(db', outcomes, k)
    {
      assert k != key ==> PaymentOk(db, outcomes, k);
    }
  }

  lemma RefundKeeps(c: Catalog, db: Database, outcomes: map<Key, Charge>, b: BookingId, user: UserId, now: Time)
    requires Consistent(c, db, outcomes)
    requires b in db.bookings && db.bookings[b].status == Confirmed && db.bookings[b].user == user
    ensures Consistent(c, RefundWrite(db, b, user, now), outcomes)
  {
    var db' := RefundWrite(db, b, user, now);
    forall x <- db'.bookings
      ensures RowOk(c, db'.bookings[x]) && Told(db', x)
    {
      TrailAppend(db.audit, RefundEntry(b, user), x);
      assert RowOk(c, db.bookings[x]) && Told(db, x);
      assert PaymentsOf(db', x) == PaymentsOf(db, x);
      if x != b {
        ToldFrame(db, db', x);
      }
    }
    forall k <- db'.payments
      ensures PaymentOk(db', outcomes, k)
    {
      assert PaymentOk(db, outcomes, k);
    }
  }

  lemma ExpireKeeps(c: Catalog, db: Database, outcomes: map<Key, Charge>, b: BookingId, cutoff: Time)
    requires Consistent(c, db, outcomes)
    requires b in db.bookings && db.bookings[b].status == Reserved
    ensures Consistent(c, ExpireOne(db, b, cutoff), outcomes)
  {
    var db' := ExpireOne(db, b, cutoff);
    forall x <- db'.bookings
      ensures RowOk(c, db'.bookings[x]) && Told(db', x)
    {
      TrailAppend(db.audit, ExpireEntry(b), x);
      assert RowOk(c, db.bookings[x]) && Told(db, x);
      assert PaymentsOf(db', x) == PaymentsOf(db, x);
      if x != b {
        ToldFrame(db, db', x);
      }
    }
    forall k <- db'.payments
      ensures PaymentOk(db', outcomes, k)
    {
      assert PaymentOk(db, outcomes, k);
    }
  }

  lemma ExpireEffect(db: Database, b: BookingId, cutoff: Time, x: BookingId)
    requires b in db.bookings && x in db.bookings
    ensures var r := ExpireOne(db, b, cutoff);
      && r.bookings[x] == (if x == b then db.bookings[x].(status := Cancelled, cancelledAt := Some(cutoff))
         else db.bookings[x])
      && Trail(r.audit, x) == Trail(db.audit, x) + if x == b then [ExpireEntry(b)] else []
  {
    TrailAppend(db.audit, ExpireEntry(b), x);
  }

  lemma InFront(ids: seq<BookingId>, x: BookingId)
    requires ids != [] && forall i, j | 0 <= i < j < |ids| :: ids[i] != ids[j]
    ensures var front, last := ids[..|ids| - 1], ids[|ids| - 1];
      last !in front && (x in ids <==> x in front || x == last)
  {
    assert ids == ids[..|ids| - 1] + [ids[|ids| - 1]];
  }

  lemma {:induction false} SweepOfOne(db: Database, ids: seq<BookingId>, cutoff: Time, x: BookingId)
    requires Sweepable(db, ids, cutoff) && x in db.bookings
    ensures var r := Sweep(db, ids, cutoff);
      && r.bookings[x] == (if x in ids then db.bookings[x].(status := Cancelled, cancelledAt := Some(cutoff))
         else db.bookings[x])
      && Trail(r.audit, x) == Trail(db.audit, x) + if x in ids then [ExpireEntry(x)] else []
  {
    if ids != [] {
      var front, last := ids[..|ids| - 1], ids[|ids| - 1];
      SweepOfOne(db, front, cutoff, x);
      ExpireEffect(Sweep(db, front, cutoff), last, cutoff, x);
      InFront(ids, x);
    }
  }

  /** A sweep touches its own rows and nothing else: each becomes Cancelled with one more entry. */
  lemma SweepEffect(db: Database, ids: seq<BookingId>, cutoff: Time)
    requires Sweepable(db, ids, cutoff)
    ensures var r := Sweep(db, ids, cutoff);
      && r.payments == db.payments
      && (forall b <- db.bookings ::
            && r.bookings[b] == (if b in ids then db.bookings[b].(status := Cancelled, cancelledAt := Some(cutoff))
                                 else db.bookings[b])
            && Trail(r.audit, b) == Trail(db.audit, b) + if b in ids then [ExpireEntry(b)] else [])
  {
    SweepKeepsPayments(db, ids, cutoff);
    forall b <- db.bookings {
      SweepOfOne(db, ids, cutoff, b);
    }
  }

  lemma {:induction false} SweepKeepsPayments(db: Database, ids: seq<BookingId>, cutoff: Time)
    requires Sweepable(db, ids, cutoff)
    ensures Sweep(db, ids, cutoff).payments == db.payments
  {
    if ids != [] {
      SweepKeepsPayments(db, ids[..|ids| - 1], cutoff);
    }
  }

  lemma {:induction false} SweepKeeps(c: Catalog, db: Database, outcomes: map<Key, Charge>, ids: seq<BookingId>,
        cutoff: Time)
    requires Consistent(c, db, outcomes) && Sweepable(db, ids, cutoff)
    ensures Consistent(c, Sweep(db, ids, cutoff), outcomes)
  {
    if ids != [] {
      var front := ids[..|ids| - 1];
      SweepKeeps(c, db, outcomes, front, cutoff);
      SweepEffect(db, front, cutoff);
      ExpireKeeps(c, Sweep(db, front, cutoff), outcomes, ids[|ids| - 1], cutoff);
    }
  }

  lemma GatewayGrows(c: Catalog, db: Database, outcomes: map<Key, Charge>, key: Key, charge: Charge)
    requires Consistent(c, db, outcomes) && (key in outcomes ==> outcomes[key] == charge)
    ensures Consistent(c, db, outcomes[key := charge])
  {
    forall k <- db.payments
      ensures PaymentOk(db, outcomes[key := charge], k)
    {
      assert PaymentOk(db, outcomes, k);
    }
  }

  lemma CreatedMeansFree(c: Catalog, db: Database, outcomes: map<Key, Charge>, a: CreateArgs, hits: set<BookingId>)
    requires Consistent(c, db, outcomes) && CreateVerdict(c, db, a, hits).None?
    ensures KeyHolder(db, a.key).None? && SeatHolder(db, a.schedule, a.seat).None?
    ensures a.user in c.users && a.schedule in c.schedules && a.seat in c.seats && hits == {}
  {
    if SeatHolder(db, a.schedule, a.seat).Some? {
      var b := SeatHolder(db, a.schedule, a.seat).value;
      assert HoldsSeatRow(db, a.schedule, a.seat, b);
      EveryBookingHasChildren(c, db, outcomes, b);
    }
  }

  lemma OpKeeps(c: Catalog, s: State, op: Op)
    requires Consistent(c, s.db, s.gateway.outcomes) && Enabled(c, s, op)
    ensures Consistent(c, Exec(c, s, op).db, Exec(c, s, op).gateway.outcomes)
  {
    var outcomes := s.gateway.outcomes;
    match op
    case Tick(_) =>
    case RefundCall(_) =>
    case ChargeOp(key, charge) => GatewayGrows(c, s.db, outcomes, key, charge);
    case CreateOp(a, hits, at, id) =>
      CreatedMeansFree(c, s.db, outcomes, a, hits);
      CreateKeeps(c, s.db, outcomes, a, at, id);
    case PayOp(b, user, key, charge, decided, paid) => PayKeeps(c, s.db, outcomes, b, user, key, paid);
    case RefundOp(b, user, decided, done) => RefundKeeps(c, s.db, outcomes, b, user, done);
    case SweepOp(ids, cutoff) => SweepKeeps(c, s.db, outcomes, ids, cutoff);
  }

  lemma {:induction false} RunKeeps(c: Catalog, states: seq<State>, ops: seq<Op>, n: nat)
    requires SerialRun(c, states, ops) && n < |states|
    ensures Consistent(c, states[n].db, states[n].gateway.outcomes)
  {
    if n > 0 {
      RunKeeps(c, states, ops, n - 1);
      OpKeeps(c, states[n - 1], ops[n - 1]);
    }
  }
}
