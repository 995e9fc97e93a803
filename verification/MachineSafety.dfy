/** The invariant of the statement machine: the tables are consistent, no lock or index
    entry has two owners, and what a transaction has read under a lock is still so. */
module MachineSafety {
  import opened Domain
  import opened Serial
  import opened Consistency
  import opened Guarantees
  import opened Machine
  import Sets

  // ---------- the invariant ----------

  ghost predicate CreateKnows(c: Catalog, db: Database, clock: Time, tx: Tx)
    requires tx.Creating?
  {
    var a, pc := tx.a, tx.cpc;
    && (pc in {OverlapQuery, FlushDelete} && tx.found.Some? ==>
          HoldsSeatRow(db, a.schedule, a.seat, tx.found.value) && !db.bookings[tx.found.value].status.Active())
    && (pc !in {KeyLookup, SeatLock, OverlapQuery} ==> a.schedule in c.schedules && a.seat in c.seats)
    && (pc in {KeyIndex, SeatIndex, CommitCreate} ==> tx.found == None && tx.at <= clock && tx.id !in db.bookings)
    && (pc in {SeatIndex, CommitCreate} ==> KeyHolder(db, a.key) == None)
    && (pc == CommitCreate ==> SeatHolder(db, a.schedule, a.seat) == None && a.user in c.users)
  }

  ghost predicate PayKnows(db: Database, outcomes: map<Key, Charge>, clock: Time, tx: Tx)
    requires tx.Paying?
  {
    && (tx.ppc != LockPay ==> tx.b in db.bookings)
    && (tx.ppc in {PaymentLookup, CallCharge, PaymentIndex, CommitPay} ==>
          PayGuard(db.bookings[tx.b], tx.user, tx.at) == None && tx.at <= clock)
    && (tx.ppc in {PaymentIndex, CommitPay} ==>
          tx.key in outcomes && outcomes[tx.key] == tx.charge && tx.at <= tx.paid <= clock)
    && (tx.ppc == CommitPay ==> tx.key !in db.payments)
  }

  ghost predicate RefundKnows(c: Catalog, db: Database, refunds: seq<Ref>, clock: Time, tx: Tx)
    requires tx.Refunding?
  {
    && (tx.rpc != LockRefund ==> tx.b in db.bookings)
    && (tx.rpc in {CallRefund, CommitRefund} ==>
          RefundGuard(c, db.bookings[tx.b], tx.user, tx.at) == None && tx.at <= clock)
    && (tx.rpc == CommitRefund ==>
          && tx.at <= tx.done <= clock
          && SuccessRef(db, tx.b).Some? && SuccessRef(db, tx.b).value in refunds)
  }

  ghost predicate CleanKnows(db: Database, clock: Time, tx: Tx)
    requires tx.Cleaning?
  {
    && tx.cutoff <= clock && Sweepable(db, tx.held, tx.cutoff)
    && (forall b <- tx.held :: b !in tx.pending) && (tx.scanned || tx.held == [])
  }

  ghost predicate Knows(c: Catalog, db: Database, gateway: Gateway, clock: Time, tx: Tx) {
    match tx
    case Creating(_, _, _, _, _) => CreateKnows(c, db, clock, tx)
    case Paying(_, _, _, _, _, _, _) => PayKnows(db, gateway.outcomes, clock, tx)
    case Refunding(_, _, _, _, _) => RefundKnows(c, db, gateway.refunds, clock, tx)
    case Cleaning(_, _, _, _) => CleanKnows(db, clock, tx)
    case Done(_) => true
  }

  /** Two transactions share no lock and no index entry. */
  ghost predicate Apart(x: Tx, y: Tx) {
    && (forall b :: !(Holds(x, b) && Holds(y, b)))
    && (forall id :: !(HoldsId(x, id) && HoldsId(y, id)))
    && (forall key :: !(HoldsKey(x, key) && HoldsKey(y, key)))
    && (forall sc, st :: !(HoldsSeat(x, sc, st) && HoldsSeat(y, sc, st)))
    && (forall key :: !(HoldsPaymentKey(x, key) && HoldsPaymentKey(y, key)))
  }

  ghost predicate Safe(c: Catalog, s: Sys) {
    && Consistent(c, s.db, s.gateway.outcomes)
    && (forall t <- s.txs :: Knows(c, s.db, s.gateway, s.clock, s.txs[t]))
    && (forall t, u | t in s.txs && u in s.txs && t != u :: Apart(s.txs[t], s.txs[u]))
  }

  // ---------- steps of one transaction that leave the tables alone ----------

  lemma LocalStep(c: Catalog, s: Sys, t: TxId, tx': Tx)
    requires Safe(c, s)
    requires Knows(c, s.db, s.gateway, s.clock, tx')
    requires forall u <- s.txs :: u != t ==> Apart(tx', s.txs[u]) && Apart(s.txs[u], tx')
    ensures Safe(c, s.(txs := s.txs[t := tx']))
  {
  }

  // ---------- create ----------

  lemma CreateStatement(c: Catalog, s: Sys, t: TxId, ch: Choice)
    requires Safe(c, s) && CanRun(s, t, ch) && s.txs[t].Creating? && s.txs[t].cpc != CommitCreate
    ensures Safe(c, Next(c, s, t, ch))
  {
    var tx := s.txs[t];
    var tx' := NextCreate(c, s, tx, ch).1;
    assert Next(c, s, t, ch) == s.(txs := s.txs[t := tx']);
    assert Knows(c, s.db, s.gateway, s.clock, tx);
    if tx.cpc == FlushDelete && tx.found.Some? {
      EveryBookingHasChildren(c, s.db, s.gateway.outcomes, tx.found.value);
    } else if tx.cpc == SeatLock {
      var row := SeatHolder(s.db, tx.a.schedule, tx.a.seat);
      assert row.Some? ==> HoldsSeatRow(s.db, tx.a.schedule, tx.a.seat, row.value);
    }
    forall u <- s.txs | u != t
      ensures Apart(tx', s.txs[u]) && Apart(s.txs[u], tx')
    {
      assert !Blocks(s.db, tx, s.txs[u]) && Apart(tx, s.txs[u]);
    }
    LocalStep(c, s, t, tx');
  }

  // ---------- pay, refund and cleanup before their commits ----------

  /** A gateway that remembers more changes nothing that is known. */
  lemma GatewayStep(c: Catalog, s: Sys, gateway: Gateway)
    requires Safe(c, s)
    requires forall k <- s.gateway.outcomes :: k in gateway.outcomes && gateway.outcomes[k] == s.gateway.outcomes[k]
    requires s.gateway.refunds <= gateway.refunds
    ensures Safe(c, s.(gateway := gateway))
  {
    forall k <- s.db.payments
      ensures PaymentOk(s.db, gateway.outcomes, k)
    {
      assert PaymentOk(s.db, s.gateway.outcomes, k);
    }
    forall t <- s.txs
      ensures Knows(c, s.db, gateway, s.clock, s.txs[t])
    {
      assert Knows(c, s.db, s.gateway, s.clock, s.txs[t]);
    }
  }

  lemma PayStatement(c: Catalog, s: Sys, t: TxId, ch: Choice)
    requires Safe(c, s) && CanRun(s, t, ch) && s.txs[t].Paying? && s.txs[t].ppc != CommitPay
    ensures Safe(c, Next(c, s, t, ch))
  {
    var tx := s.txs[t];
    var (db, gateway, tx') := NextPay(s, tx, ch);
    assert Knows(c, s.db, s.gateway, s.clock, tx);
    GatewayStep(c, s, gateway);
    var s1 := s.(gateway := gateway);
    assert Next(c, s, t, ch) == s1.(txs := s1.txs[t := tx']);
    forall u <- s.txs | u != t
      ensures Apart(tx', s.txs[u]) && Apart(s.txs[u], tx')
    {
      assert !Blocks(s.db, tx, s.txs[u]) && Apart(tx, s.txs[u]);
    }
    LocalStep(c, s1, t, tx');
  }

  lemma SuccessRefExists(c: Catalog, db: Database, outcomes: map<Key, Charge>, b: BookingId)
    requires Consistent(c, db, outcomes) && b in db.bookings && db.bookings[b].status in {Confirmed, Refunded}
    ensures |Successes(db, b)| == 1 && SuccessRef(db, b).Some?
  {
    PaymentsMatchStatus(c, db, outcomes, b);
    var k :| k in db.payments && Successes(db, b) == PaymentsOf(db, b) == {k};
    assert k in Successes(db, b);
  }

  lemma RefundStatement(c: Catalog, s: Sys, t: TxId, ch: Choice)
    requires Safe(c, s) && CanRun(s, t, ch) && s.txs[t].Refunding? && s.txs[t].rpc != CommitRefund
    ensures Safe(c, Next(c, s, t, ch))
  {
    var tx := s.txs[t];
    var (db, gateway, tx') := NextRefund(c, s, tx);
    assert Knows(c, s.db, s.gateway, s.clock, tx);
    if tx.rpc == CallRefund {
      SuccessRefExists(c, s.db, s.gateway.outcomes, tx.b);
    }
    GatewayStep(c, s, gateway);
    var s1 := s.(gateway := gateway);
    assert Next(c, s, t, ch) == s1.(txs := s1.txs[t := tx']);
    forall u <- s.txs | u != t
      ensures Apart(tx', s.txs[u]) && Apart(s.txs[u], tx')
    {
      assert !Blocks(s.db, tx, s.txs[u]) && Apart(tx, s.txs[u]);
    }
    LocalStep(c, s1, t, tx');
  }

  lemma CleanStatement(c: Catalog, s: Sys, t: TxId, ch: Choice)
    requires Safe(c, s) && CanRun(s, t, ch) && s.txs[t].Cleaning?
    requires !s.txs[t].scanned || s.txs[t].pending != {}
    ensures Safe(c, Next(c, s, t, ch))
  {
    var tx := s.txs[t];
    var tx' := NextClean(s, t, tx, ch).1;
    assert Knows(c, s.db, s.gateway, s.clock, tx);
    assert Next(c, s, t, ch) == s.(txs := s.txs[t := tx']);
    forall u <- s.txs | u != t
      ensures Apart(tx', s.txs[u]) && Apart(s.txs[u], tx')
    {
      assert Apart(tx, s.txs[u]);
    }
    LocalStep(c, s, t, tx');
  }

  // ---------- commits ----------

  /** The tables after a commit of tx: rows and payments that tx did not hold are as before,
      and what is new lies under the index entries of tx. */
  ghost predicate CommitFrame(db: Database, db': Database, tx: Tx) {
    && (forall b <- db.bookings :: b in db'.bookings && (Holds(tx, b) || db'.bookings[b] == db.bookings[b]))
    && (forall b <- db.bookings ::
          db'.bookings[b].schedule == db.bookings[b].schedule && db'.bookings[b].seat == db.bookings[b].seat
          && db'.bookings[b].key == db.bookings[b].key)
    && (forall b <- db'.bookings :: b in db.bookings ||
          (HoldsId(tx, b) && HoldsKey(tx, db'.bookings[b].key)
              && HoldsSeat(tx, db'.bookings[b].schedule, db'.bookings[b].seat)))
    && (forall k <- db.payments :: k in db'.payments && db'.payments[k] == db.payments[k])
    && (forall k <- db'.payments :: k in db.payments || (HoldsPaymentKey(tx, k) && Holds(tx, db'.payments[k].booking)))
  }

  lemma NoHolderAfterCommit(db: Database, db': Database, tx: Tx, a: CreateArgs)
    requires CommitFrame(db, db', tx)
    ensures KeyHolder(db, a.key) == None && !HoldsKey(tx, a.key) ==> KeyHolder(db', a.key) == None
    ensures SeatHolder(db, a.schedule, a.seat) == None && !HoldsSeat(tx, a.schedule, a.seat) ==>
            SeatHolder(db', a.schedule, a.seat) == None
  {
    assert forall b <- db'.bookings :: b in db.bookings && HoldsKeyRow(db', a.key, b) ==> HoldsKeyRow(db, a.key, b);
    assert forall b <- db'.bookings :: b in db.bookings && HoldsSeatRow(db', a.schedule, a.seat, b) ==>
        HoldsSeatRow(db, a.schedule, a.seat, b);
  }

  lemma SuccessesAfterCommit(db: Database, db': Database, tx: Tx, b: BookingId)
    requires CommitFrame(db, db', tx) && !Holds(tx, b)
    ensures Successes(db', b) == Successes(db, b) && SuccessRef(db', b) == SuccessRef(db, b)
  {
    assert forall k :: k in Successes(db', b) <==> k in Successes(db, b);
    assert Successes(db', b) == Successes(db, b);
  }

  /** What another transaction knows survives a commit. */
  lemma KnowsAfterCommit(c: Catalog, db: Database, db': Database, gateway: Gateway, clock: Time, tx: Tx, other: Tx)
    requires CommitFrame(db, db', tx) && Apart(tx, other)
    requires Knows(c, db, gateway, clock, other)
    ensures Knows(c, db', gateway, clock, other)
  {
    match other
    case Creating(a, pc, found, _, _) =>
      NoHolderAfterCommit(db, db', tx, a);
      assert found.Some? && pc in {OverlapQuery, FlushDelete} ==> Holds(other, found.value);
    case Paying(b, _, _, _, _, _, _) => assert other.ppc != LockPay ==> Holds(other, b);
    case Refunding(b, _, _, _, _) =>
      if other.rpc != LockRefund {
        assert Holds(other, b);
        SuccessesAfterCommit(db, db', tx, b);
      }
    case Cleaning(_, _, _, held) => assert forall b <- held :: Holds(other, b);
    case Done(_) =>
  }

  lemma CommitStep(c: Catalog, s: Sys, t: TxId, db': Database, out: Outcome)
    requires Safe(c, s) && t in s.txs && CommitFrame(s.db, db', s.txs[t])
    requires Consistent(c, db', s.gateway.outcomes)
    ensures Safe(c, s.(db := db', txs := s.txs[t := Done(out)]))
  {
    forall u <- s.txs | u != t
      ensures Knows(c, db', s.gateway, s.clock, s.txs[u])
    {
      KnowsAfterCommit(c, s.db, db', s.gateway, s.clock, s.txs[t], s.txs[u]);
    }
  }

  lemma CreateCommits(c: Catalog, s: Sys, t: TxId, ch: Choice)
    requires Safe(c, s) && CanRun(s, t, ch) && s.txs[t].Creating? && s.txs[t].cpc == CommitCreate
    ensures Safe(c, Next(c, s, t, ch))
  {
    var tx := s.txs[t];
    assert Knows(c, s.db, s.gateway, s.clock, tx);
    CreateKeeps(c, s.db, s.gateway.outcomes, tx.a, tx.at, tx.id);
    CommitStep(c, s, t, CreateWrite(c, s.db, tx.a, None, tx.at, tx.id), Created(tx.id));
  }

  lemma PayCommits(c: Catalog, s: Sys, t: TxId, ch: Choice)
    requires Safe(c, s) && CanRun(s, t, ch) && s.txs[t].Paying? && s.txs[t].ppc == CommitPay
    ensures Safe(c, Next(c, s, t, ch))
  {
    var tx := s.txs[t];
    assert Knows(c, s.db, s.gateway, s.clock, tx);
    PayKeeps(c, s.db, s.gateway.outcomes, tx.b, tx.user, tx.key, tx.paid);
    CommitStep(c, s, t, PayWrite(s.db, tx.b, tx.user, tx.key, tx.charge, tx.paid), Settled(tx.b));
  }

  lemma RefundCommits(c: Catalog, s: Sys, t: TxId, ch: Choice)
    requires Safe(c, s) && CanRun(s, t, ch) && s.txs[t].Refunding? && s.txs[t].rpc == CommitRefund
    ensures Safe(c, Next(c, s, t, ch))
  {
    var tx := s.txs[t];
    assert Knows(c, s.db, s.gateway, s.clock, tx);
    RefundKeeps(c, s.db, s.gateway.outcomes, tx.b, tx.user, tx.done);
    CommitStep(c, s, t, RefundWrite(s.db, tx.b, tx.user, tx.done), Settled(tx.b));
  }

  lemma CleanCommits(c: Catalog, s: Sys, t: TxId, ch: Choice)
    requires Safe(c, s) && CanRun(s, t, ch) && s.txs[t].Cleaning? && s.txs[t].scanned && s.txs[t].pending == {}
    ensures Safe(c, Next(c, s, t, ch))
  {
    var tx := s.txs[t];
    assert Knows(c, s.db, s.gateway, s.clock, tx);
    SweepKeeps(c, s.db, s.gateway.outcomes, tx.held, tx.cutoff);
    SweepEffect(s.db, tx.held, tx.cutoff);
    CommitStep(c, s, t, Sweep(s.db, tx.held, tx.cutoff), Swept);
  }

  // ---------- every step ----------

  lemma StatementIsSafe(c: Catalog, s: Sys, t: TxId, ch: Choice)
    requires Safe(c, s) && CanRun(s, t, ch)
    ensures Safe(c, Next(c, s, t, ch))
  {
    match s.txs[t]
    case Creating(_, pc, _, _, _) =>
      if pc == CommitCreate { CreateCommits(c, s, t, ch); } else { CreateStatement(c, s, t, ch); }
    case Paying(_, _, _, pc, _, _, _) =>
      if pc == CommitPay { PayCommits(c, s, t, ch); } else { PayStatement(c, s, t, ch); }
    case Refunding(_, _, pc, _, _) =>
      if pc == CommitRefund { RefundCommits(c, s, t, ch); } else { RefundStatement(c, s, t, ch); }
    case Cleaning(scanned, _, pending, _) =>
      if scanned && pending == {} { CleanCommits(c, s, t, ch); } else { CleanStatement(c, s, t, ch); }
    case Done(_) =>
  }

  lemma TickIsSafe(c: Catalog, s: Sys, to: Time)
    requires Safe(c, s) && s.clock <= to
    ensures Safe(c, s.(clock := to))
  {
    forall t <- s.txs
      ensures Knows(c, s.db, s.gateway, to, s.txs[t])
    {
      assert Knows(c, s.db, s.gateway, s.clock, s.txs[t]);
    }
  }

  lemma StepIsSafe(c: Catalog, s: Sys, act: Act, s': Sys)
    requires Safe(c, s) && Step(c, s, act, s')
    ensures Safe(c, s')
  {
    match act
    case Tick(to) => TickIsSafe(c, s, to);
    case Begin(t, tx) => LocalStep(c, s, t, tx);
    case Abort(t) => LocalStep(c, s, t, Done(Aborted));
    case Statement(t, ch) => StatementIsSafe(c, s, t, ch);
  }

  lemma {:induction false} PathIsSafe(c: Catalog, tr: seq<Sys>, acts: seq<Act>, n: nat)
    requires Path(c, tr, acts) && Safe(c, tr[0]) && n < |tr|
    ensures Safe(c, tr[n])
  {
    if n > 0 {
      PathIsSafe(c, tr, acts, n - 1);
      StepIsSafe(c, tr[n - 1], acts[n - 1], tr[n]);
    }
  }

  /** Every reachable state of every interleaving is safe. */
  lemma RunIsSafe(c: Catalog, tr: seq<Sys>, acts: seq<Act>, n: nat)
    requires Run(c, tr, acts) && n < |tr|
    ensures Safe(c, tr[n])
  {
    PathIsSafe(c, tr, acts, n);
  }

  /** There is always an id that no row has and no open create has taken. */
  lemma FreshId(s: Sys) returns (id: BookingId)
    ensures id !in s.db.bookings && forall u <- s.txs :: !HoldsId(s.txs[u], id)
  {
    var inUse := s.db.bookings.Keys + set u | u in s.txs :: BookingIdOf(s.txs[u]);
    id := Sets.Unused(inUse);
    forall u <- s.txs
      ensures !HoldsId(s.txs[u], id)
    {
      assert BookingIdOf(s.txs[u]) in inUse;
    }
  }

  function BookingIdOf(tx: Tx): BookingId { if tx.Creating? then tx.id else 0 }
}
