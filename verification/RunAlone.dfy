/** The other direction of the refinement: from every safe state in which nothing else is
    open, each request can run through its statements to the result of its atomic operation. */
module RunAlone {
  import opened Domain
  import opened Serial
  import opened Machine
  import opened MachineSafety
  import opened OpenCreates
  import opened Deadlock
  import Sets

  /** No transaction but t is open. */
  ghost predicate Alone(s: Sys, t: TxId) {
    t in s.txs && forall u <- s.txs :: u != t ==> s.txs[u].Done?
  }

  /** A path to a state in which transaction t and nothing else may be open. */
  ghost predicate Leads(c: Catalog, tr: seq<Sys>, acts: seq<Act>, t: TxId) {
    Path(c, tr, acts) && Safe(c, tr[|acts|]) && Alone(tr[|acts|], t)
  }

  /** The path goes on to an end of t and touches no other transaction and no clock. */
  ghost predicate Ends(c: Catalog, tr: seq<Sys>, acts: seq<Act>, tr': seq<Sys>, acts': seq<Act>, t: TxId) {
    && Path(c, tr, acts) && Leads(c, tr', acts', t) && tr <= tr'
    && var s, s' := tr[|acts|], tr'[|acts'|];
    s'.clock == s.clock && s'.txs.Keys == s.txs.Keys + {t} && s'.txs[t].Done? && s'.txs - {t} == s.txs - {t}
  }

  lemma Starts(c: Catalog, tr: seq<Sys>, acts: seq<Act>, t: TxId, tx: Tx) returns (tr': seq<Sys>, acts': seq<Act>)
    requires Path(c, tr, acts) && Safe(c, tr[|acts|]) && Quiet(tr[|acts|]) && t !in tr[|acts|].txs
    requires Starting(tx, tr[|acts|].clock)
    ensures Leads(c, tr', acts', t) && tr <= tr'
    ensures var s := tr[|acts|]; tr'[|acts'|] == s.(txs := s.txs[t := tx])
  {
    var s := tr[|acts|];
    var s' := s.(txs := s.txs[t := tx]);
    Append(c, tr, acts, Begin(t, tx), s');
    StepIsSafe(c, s, Begin(t, tx), s');
    tr', acts' := tr + [s'], acts + [Begin(t, tx)];
  }

  /** Nothing blocks a transaction that is alone. */
  lemma Advances(c: Catalog, tr: seq<Sys>, acts: seq<Act>, t: TxId, ch: Choice) returns (tr': seq<Sys>, acts': seq<Act>)
    requires Leads(c, tr, acts, t) && !tr[|acts|].txs[t].Done? && Fits(tr[|acts|], t, ch)
    ensures Leads(c, tr', acts', t) && tr <= tr' && tr'[|acts'|] == Next(c, tr[|acts|], t, ch)
    ensures var s, s' := tr[|acts|], tr'[|acts'|];
      && s'.clock == s.clock && s'.txs.Keys == s.txs.Keys && s'.txs - {t} == s.txs - {t}
      && Left(s'.db, s'.txs[t]) < Left(s.db, s.txs[t])
      && (s.txs[t].Creating? ==> s'.gateway == s.gateway)
  {
    var s := tr[|acts|];
    var s' := Next(c, s, t, ch);
    assert CanRun(s, t, ch);
    Append(c, tr, acts, Statement(t, ch), s');
    StatementIsSafe(c, s, t, ch);
    EachStatementAdvances(c, s, t, ch);
    NextTouchesOnly(c, s, t, ch);
    tr', acts' := tr + [s'], acts + [Statement(t, ch)];
  }

  lemma NextTouchesOnly(c: Catalog, s: Sys, t: TxId, ch: Choice)
    requires c.Valid() && t in s.txs
    ensures var s' := Next(c, s, t, ch);
      && s'.clock == s.clock && s'.txs.Keys == s.txs.Keys && s'.txs - {t} == s.txs - {t}
      && (forall u <- s.txs :: u != t ==> s'.txs[u] == s.txs[u])
      && (s.txs[t].Creating? ==> s'.gateway == s.gateway)
  {
  }

  // ---------- pay ----------

  /** An open pay whose reads and clock readings are those of the present. */
  ghost predicate PayIsCurrent(s: Sys, t: TxId, charge: Charge)
    requires t in s.txs
  {
    var tx := s.txs[t];
    && tx.Paying?
    && (tx.ppc in {PaymentLookup, CallCharge, PaymentIndex, CommitPay} ==> tx.at == s.clock)
    && (tx.ppc in {CallCharge, PaymentIndex, CommitPay} ==> tx.key !in s.db.payments)
    && (tx.ppc in {PaymentIndex, CommitPay} ==> tx.charge == charge && tx.paid == s.clock)
    && (tx.ppc !in {PaymentIndex, CommitPay} && tx.key in s.gateway.outcomes ==> s.gateway.outcomes[tx.key] == charge)
  }

  ghost function PayNow(s: Sys, tx: Tx, charge: Charge): (Database, Outcome)
    requires tx.Paying?
  {
    Pay(s.db, tx.b, tx.user, tx.key, charge, s.clock, s.clock)
  }

  lemma PayStep(c: Catalog, s: Sys, t: TxId, ch: Choice)
    requires Safe(c, s) && t in s.txs && PayIsCurrent(s, t, ch.charge)
    ensures var s' := Next(c, s, t, ch);
      if s'.txs[t].Done? then (s'.db, s'.txs[t].out) == PayNow(s, s.txs[t], ch.charge)
      else PayIsCurrent(s', t, ch.charge) && PayNow(s', s'.txs[t], ch.charge) == PayNow(s, s.txs[t], ch.charge)
  {
    assert Knows(c, s.db, s.gateway, s.clock, s.txs[t]);
  }

  lemma {:induction false} PayEnds(c: Catalog, tr: seq<Sys>, acts: seq<Act>, t: TxId, charge: Charge)
      returns (tr': seq<Sys>, acts': seq<Act>)
    requires Leads(c, tr, acts, t) && PayIsCurrent(tr[|acts|], t, charge)
    ensures Ends(c, tr, acts, tr', acts', t)
    ensures (tr'[|acts'|].db, tr'[|acts'|].txs[t].out) == PayNow(tr[|acts|], tr[|acts|].txs[t], charge)
    decreases Left(tr[|acts|].db, tr[|acts|].txs[t])
  {
    var ch := Choice(0, charge);
    tr', acts' := Advances(c, tr, acts, t, ch);
    PayStep(c, tr[|acts|], t, ch);
    if !tr'[|acts'|].txs[t].Done? {
      tr', acts' := PayEnds(c, tr', acts', t, charge);
    }
  }

  /** A pay that runs alone is the atomic pay, with any decision of the gateway that agrees
      with what it remembers. */
  lemma PayRunsAlone(c: Catalog, tr: seq<Sys>, acts: seq<Act>, t: TxId, b: BookingId, user: UserId, key: Key,
        charge: Charge)
      returns (tr': seq<Sys>, acts': seq<Act>)
    requires Path(c, tr, acts) && Safe(c, tr[|acts|]) && Quiet(tr[|acts|]) && t !in tr[|acts|].txs
    requires key in tr[|acts|].gateway.outcomes ==> tr[|acts|].gateway.outcomes[key] == charge
    ensures Ends(c, tr, acts, tr', acts', t)
    ensures var s, s' := tr[|acts|], tr'[|acts'|];
      (s'.db, s'.txs[t].out) == Pay(s.db, b, user, key, charge, s.clock, s.clock)
  {
    tr', acts' := Starts(c, tr, acts, t, Paying(b, user, key, LockPay, 0, 0, charge));
    tr', acts' := PayEnds(c, tr', acts', t, charge);
  }

  // ---------- refund ----------

  ghost predicate RefundIsCurrent(s: Sys, t: TxId)
    requires t in s.txs
  {
    var tx := s.txs[t];
    && tx.Refunding? && (tx.rpc in {CallRefund, CommitRefund} ==> tx.at == s.clock)
    && (tx.rpc == CommitRefund ==> tx.done == s.clock)
  }

  ghost function RefundNow(c: Catalog, s: Sys, tx: Tx): (Database, Outcome)
    requires tx.Refunding?
  {
    Refund(c, s.db, tx.b, tx.user, s.clock, s.clock)
  }

  lemma RefundStep(c: Catalog, s: Sys, t: TxId, ch: Choice)
    requires Safe(c, s) && t in s.txs && RefundIsCurrent(s, t)
    ensures var s' := Next(c, s, t, ch);
      if s'.txs[t].Done? then (s'.db, s'.txs[t].out) == RefundNow(c, s, s.txs[t])
      else RefundIsCurrent(s', t) && RefundNow(c, s', s'.txs[t]) == RefundNow(c, s, s.txs[t])
  {
    var tx := s.txs[t];
    assert Knows(c, s.db, s.gateway, s.clock, tx);
    if tx.rpc in {CallRefund, CommitRefund} {
      SuccessRefExists(c, s.db, s.gateway.outcomes, tx.b);
    }
  }

  lemma {:induction false} RefundEnds(c: Catalog, tr: seq<Sys>, acts: seq<Act>, t: TxId)
      returns (tr': seq<Sys>, acts': seq<Act>)
    requires Leads(c, tr, acts, t) && RefundIsCurrent(tr[|acts|], t)
    ensures Ends(c, tr, acts, tr', acts', t)
    ensures (tr'[|acts'|].db, tr'[|acts'|].txs[t].out) == RefundNow(c, tr[|acts|], tr[|acts|].txs[t])
    decreases Left(tr[|acts|].db, tr[|acts|].txs[t])
  {
    var ch := Choice(0, Declined);
    tr', acts' := Advances(c, tr, acts, t, ch);
    RefundStep(c, tr[|acts|], t, ch);
    if !tr'[|acts'|].txs[t].Done? {
      tr', acts' := RefundEnds(c, tr', acts', t);
    }
  }

  lemma RefundRunsAlone(c: Catalog, tr: seq<Sys>, acts: seq<Act>, t: TxId, b: BookingId, user: UserId)
      returns (tr': seq<Sys>, acts': seq<Act>)
    requires Path(c, tr, acts) && Safe(c, tr[|acts|]) && Quiet(tr[|acts|]) && t !in tr[|acts|].txs
    ensures Ends(c, tr, acts, tr', acts', t)
    ensures var s, s' := tr[|acts|], tr'[|acts'|];
      (s'.db, s'.txs[t].out) == Refund(c, s.db, b, user, s.clock, s.clock)
  {
    tr', acts' := Starts(c, tr, acts, t, Refunding(b, user, LockRefund, 0, 0));
    tr', acts' := RefundEnds(c, tr', acts', t);
  }

  // ---------- create ----------

  /** An open create whose reads are those of the present, with id as its choice. */
  ghost predicate CreateIsCurrent(c: Catalog, s: Sys, t: TxId, id: BookingId)
    requires t in s.txs
  {
    var tx := s.txs[t];
    && tx.Creating? && id !in s.db.bookings
    && (tx.cpc != KeyLookup ==> KeyHolder(s.db, tx.a.key) == None)
    && (tx.cpc !in {KeyLookup, SeatLock} ==> tx.found == SeatHolder(s.db, tx.a.schedule, tx.a.seat))
    && (tx.cpc !in {KeyLookup, SeatLock, OverlapQuery} ==> OverlapHits(c, s.db, tx.a.user, tx.a.schedule) == {})
    && (tx.cpc in {KeyIndex, SeatIndex, CommitCreate} ==> tx.id == id && tx.at == s.clock)
  }

  lemma CreateStep(c: Catalog, s: Sys, t: TxId, ch: Choice)
    requires Safe(c, s) && t in s.txs && CreateIsCurrent(c, s, t, ch.id)
    ensures var s' := Next(c, s, t, ch);
      if s'.txs[t].Done? then (s'.db, s'.txs[t].out) == CreateNow(c, s.db, s.txs[t].a, s.clock, ch.id)
      else CreateIsCurrent(c, s', t, ch.id) && s'.db == s.db && s'.txs[t].a == s.txs[t].a
  {
    var tx := s.txs[t];
    assert Knows(c, s.db, s.gateway, s.clock, tx);
    assert NextCreate(c, s, tx, ch).0 == s.db || tx.cpc == CommitCreate;
  }

  lemma {:induction false} CreateEnds(c: Catalog, tr: seq<Sys>, acts: seq<Act>, t: TxId, id: BookingId)
      returns (tr': seq<Sys>, acts': seq<Act>)
    requires Leads(c, tr, acts, t) && CreateIsCurrent(c, tr[|acts|], t, id)
    ensures Ends(c, tr, acts, tr', acts', t)
    ensures var s, s' := tr[|acts|], tr'[|acts'|];
      s'.gateway == s.gateway && (s'.db, s'.txs[t].out) == CreateNow(c, s.db, s.txs[t].a, s.clock, id)
    decreases Left(tr[|acts|].db, tr[|acts|].txs[t])
  {
    var ch := Choice(id, Declined);
    tr', acts' := Advances(c, tr, acts, t, ch);
    CreateStep(c, tr[|acts|], t, ch);
    if !tr'[|acts'|].txs[t].Done? {
      tr', acts' := CreateEnds(c, tr', acts', t, id);
    }
  }

  lemma CreateRunsAlone(c: Catalog, tr: seq<Sys>, acts: seq<Act>, t: TxId, a: CreateArgs, id: BookingId)
      returns (tr': seq<Sys>, acts': seq<Act>)
    requires Path(c, tr, acts) && Safe(c, tr[|acts|]) && Quiet(tr[|acts|]) && t !in tr[|acts|].txs
    requires id !in tr[|acts|].db.bookings
    ensures Ends(c, tr, acts, tr', acts', t)
    ensures var s, s' := tr[|acts|], tr'[|acts'|];
      s'.gateway == s.gateway && (s'.db, s'.txs[t].out) == CreateNow(c, s.db, a, s.clock, id)
  {
    tr', acts' := Starts(c, tr, acts, t, Creating(a, KeyLookup, None, 0, 0));
    tr', acts' := CreateEnds(c, tr', acts', t, id);
  }

  // ---------- cleanup ----------

  /** An open pass that has skipped nothing. */
  ghost predicate PassIsCurrent(s: Sys, t: TxId)
    requires t in s.txs
  {
    var tx := s.txs[t];
    && tx.Cleaning? && tx.cutoff == s.clock
    && (tx.scanned ==> forall b <- s.db.bookings :: Stale(s.db.bookings[b], s.clock) <==>
       b in tx.pending || b in tx.held)
    && (tx.scanned ==> tx.pending <= s.db.bookings.Keys)
  }

  /** Rows lists the stale rows, each once, and sweeping them is what the pass has done. */
  ghost predicate SweptAll(db: Database, db': Database, rows: seq<BookingId>, cutoff: Time) {
    && Sweepable(db, rows, cutoff) && db' == Sweep(db, rows, cutoff)
    && forall b <- db.bookings :: b in rows <==>
         db.bookings[b].status == Reserved && db.bookings[b].expiresAt.Some? && db.bookings[b].expiresAt.value < cutoff
  }

  lemma PassStep(c: Catalog, s: Sys, t: TxId, ch: Choice)
    requires Safe(c, s) && Alone(s, t) && PassIsCurrent(s, t) && Fits(s, t, ch)
    ensures var s' := Next(c, s, t, ch);
      if s'.txs[t].Done? then SweptAll(s.db, s'.db, s.txs[t].held, s.clock) && s'.txs[t].out == Swept
      else PassIsCurrent(s', t) && s'.db == s.db
  {
    assert Knows(c, s.db, s.gateway, s.clock, s.txs[t]);
    assert RowFree(s, t, ch.id);
  }

  lemma {:induction false} PassEnds(c: Catalog, tr: seq<Sys>, acts: seq<Act>, t: TxId)
      returns (tr': seq<Sys>, acts': seq<Act>, rows: seq<BookingId>)
    requires Leads(c, tr, acts, t) && PassIsCurrent(tr[|acts|], t)
    ensures Ends(c, tr, acts, tr', acts', t)
    ensures tr'[|acts'|].txs[t].out == Swept && SweptAll(tr[|acts|].db, tr'[|acts'|].db, rows, tr[|acts|].clock)
    decreases Left(tr[|acts|].db, tr[|acts|].txs[t])
  {
    var s := tr[|acts|];
    var next: BookingId := 0;
    if s.txs[t].pending != {} {
      next := Sets.Pick(s.txs[t].pending);
    }
    var ch := Choice(next, Declined);
    rows := s.txs[t].held;
    tr', acts' := Advances(c, tr, acts, t, ch);
    PassStep(c, s, t, ch);
    if !tr'[|acts'|].txs[t].Done? {
      tr', acts', rows := PassEnds(c, tr', acts', t);
    }
  }

  /** A pass that runs alone sweeps exactly the stale rows. */
  lemma PassRunsAlone(c: Catalog, tr: seq<Sys>, acts: seq<Act>, t: TxId)
      returns (tr': seq<Sys>, acts': seq<Act>, rows: seq<BookingId>)
    requires Path(c, tr, acts) && Safe(c, tr[|acts|]) && Quiet(tr[|acts|]) && t !in tr[|acts|].txs
    ensures Ends(c, tr, acts, tr', acts', t)
    ensures tr'[|acts'|].txs[t].out == Swept && SweptAll(tr[|acts|].db, tr'[|acts'|].db, rows, tr[|acts|].clock)
  {
    tr', acts' := Starts(c, tr, acts, t, Cleaning(false, tr[|acts|].clock, {}, []));
    tr', acts', rows := PassEnds(c, tr', acts', t);
  }
}
