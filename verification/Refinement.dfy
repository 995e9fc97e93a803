/** Every interleaved run of statements is, in commit order, a serial run of the atomic
    operations; charges and refund calls are operations of their own. */
module Refinement {
  import opened Domain
  import opened Serial
  import opened SerialRuns
  import opened Consistency
  import opened Machine
  import opened MachineSafety

  function Visible(s: Sys): State { State(s.db, s.gateway, s.clock) }

  /** The atomic operation that takes effect with a step, if any. */
  ghost function OpOf(s: Sys, act: Act): Option<Op> {
    match act
    case Tick(to) => Some(Op.Tick(to))
    case Begin(_, _) => None
    case Abort(_) => None
    case Statement(t, ch) =>
      if t !in s.txs then None
      else match s.txs[t]
        case Creating(a, pc, _, at, id) => if pc == CommitCreate then Some(CreateOp(a, {}, at, id)) else None
        case Paying(b, user, key, pc, at, paid, charge) =>
          if pc == CallCharge then Some(ChargeOp(key, ch.charge))
          else if pc == CommitPay then Some(PayOp(b, user, key, charge, at, paid))
          else None
        case Refunding(b, user, pc, at, done) =>
          if pc == CallRefund && |Successes(s.db, b)| <= 1 && SuccessRef(s.db, b).Some? then
            Some(RefundCall(SuccessRef(s.db, b).value))
          else if pc == CommitRefund then Some(RefundOp(b, user, at, done))
          else None
        case Cleaning(scanned, cutoff, pending, held) =>
          if scanned && pending == {} then Some(SweepOp(held, cutoff)) else None
        case Done(_) => None
  }

  /** The answer of an atomic operation. */
  ghost function Answer(c: Catalog, s: State, op: Op): Option<Outcome>
    requires c.Valid()
  {
    match op
    case CreateOp(a, hits, at, id) => Some(Create(c, s.db, a, hits, at, id).1)
    case PayOp(b, user, key, charge, decided, paid) => Some(Pay(s.db, b, user, key, charge, decided, paid).1)
    case RefundOp(b, user, decided, done) => Some(Refund(c, s.db, b, user, decided, done).1)
    case SweepOp(_, _) => Some(Swept)
    case _ => None
  }

  predicate Wrote(out: Outcome) { out.Created? || out.Settled? || out.Swept? }

  /** A statement of t does what it should: without an operation nothing visible changes;
      with one, it is enabled and has the same effect. */
  ghost predicate Refines(c: Catalog, s: Sys, t: TxId, ch: Choice)
    requires c.Valid() && t in s.txs
  {
    var op := OpOf(s, Statement(t, ch));
    && (op.None? ==> Visible(Next(c, s, t, ch)) == Visible(s))
    && (op.Some? ==> Enabled(c, Visible(s), op.value) && Visible(Next(c, s, t, ch)) == Exec(c, Visible(s), op.value))
  }

  /** A statement of t reports a write exactly when it commits one, with the answer of the
      atomic operation; any other ending leaves the tables as they were. */
  ghost predicate Reports(c: Catalog, s: Sys, t: TxId, ch: Choice)
    requires c.Valid() && t in s.txs
  {
    var s' := Next(c, s, t, ch);
    var op := OpOf(s, Statement(t, ch));
    var committed := if op.Some? then Answer(c, Visible(s), op.value) else None;
    && (committed.Some? ==> s'.txs[t] == Done(committed.value) && Wrote(committed.value))
    && (committed.None? ==> s'.db == s.db && (s'.txs[t].Done? ==> !Wrote(s'.txs[t].out)))
  }

  lemma CreateRefines(c: Catalog, s: Sys, t: TxId, ch: Choice)
    requires Safe(c, s) && CanRun(s, t, ch) && s.txs[t].Creating?
    ensures Refines(c, s, t, ch) && Reports(c, s, t, ch)
  {
    assert Knows(c, s.db, s.gateway, s.clock, s.txs[t]);
  }

  lemma PayRefines(c: Catalog, s: Sys, t: TxId, ch: Choice)
    requires Safe(c, s) && CanRun(s, t, ch) && s.txs[t].Paying?
    ensures Refines(c, s, t, ch) && Reports(c, s, t, ch)
  {
    assert Knows(c, s.db, s.gateway, s.clock, s.txs[t]);
  }

  lemma RefundRefines(c: Catalog, s: Sys, t: TxId, ch: Choice)
    requires Safe(c, s) && CanRun(s, t, ch) && s.txs[t].Refunding?
    ensures Refines(c, s, t, ch) && Reports(c, s, t, ch)
  {
    var tx := s.txs[t];
    assert Knows(c, s.db, s.gateway, s.clock, tx);
    if tx.rpc == CommitRefund {
      SuccessRefExists(c, s.db, s.gateway.outcomes, tx.b);
      var k := AnyKey(Successes(s.db, tx.b)).value;
      assert k in Successes(s.db, tx.b) && s.db.payments[k].charge.ref in s.gateway.refunds;
    }
  }

  lemma CleanRefines(c: Catalog, s: Sys, t: TxId, ch: Choice)
    requires Safe(c, s) && CanRun(s, t, ch) && s.txs[t].Cleaning?
    ensures Refines(c, s, t, ch) && Reports(c, s, t, ch)
  {
    assert Knows(c, s.db, s.gateway, s.clock, s.txs[t]);
  }

  lemma StatementRefines(c: Catalog, s: Sys, t: TxId, ch: Choice)
    requires Safe(c, s) && CanRun(s, t, ch)
    ensures Refines(c, s, t, ch) && Reports(c, s, t, ch)
  {
    match s.txs[t]
    case Creating(_, _, _, _, _) => CreateRefines(c, s, t, ch);
    case Paying(_, _, _, _, _, _, _) => PayRefines(c, s, t, ch);
    case Refunding(_, _, _, _, _) => RefundRefines(c, s, t, ch);
    case Cleaning(_, _, _, _) => CleanRefines(c, s, t, ch);
    case Done(_) =>
  }

  lemma StepRefines(c: Catalog, s: Sys, act: Act, s': Sys)
    requires Safe(c, s) && Step(c, s, act, s')
    ensures var op := OpOf(s, act);
      && (op.None? ==> Visible(s') == Visible(s))
      && (op.Some? ==> Enabled(c, Visible(s), op.value) && Visible(s') == Exec(c, Visible(s), op.value))
  {
    if act.Statement? {
      StatementRefines(c, s, act.t, act.ch);
    }
  }

  // ---------- clock readings ----------

  /** The times that end up in the tables are readings of the clock: the hold starts when the
      row is built, a payment and a refund complete after their gateway call, guards are
      decided when they are evaluated. */
  lemma TimesAreRead(c: Catalog, s: Sys, act: Act, s': Sys, t: TxId)
    requires c.Valid() && Step(c, s, act, s') && t in s.txs && t in s'.txs
    ensures s'.txs[t].Creating? && s.txs[t].cpc == FlushDelete && s'.txs[t].cpc == KeyIndex ==> s'.txs[t].at == s.clock
    ensures s'.txs[t].Paying? && s.txs[t].ppc == CheckPay && s'.txs[t].ppc == PaymentLookup ==> s'.txs[t].at == s.clock
    ensures s'.txs[t].Paying? && s.txs[t].ppc == CallCharge && s'.txs[t].ppc == PaymentIndex ==>
              s'.txs[t].paid == s.clock
    ensures s'.txs[t].Refunding? && s.txs[t].rpc == CheckRefund && s'.txs[t].rpc == CallRefund ==>
              s'.txs[t].at == s.clock
    ensures s'.txs[t].Refunding? && s.txs[t].rpc == CallRefund && s'.txs[t].rpc == CommitRefund ==>
              s'.txs[t].done == s.clock
    ensures s'.txs[t].Cleaning? ==> s.txs[t].Cleaning? && s'.txs[t].cutoff == s.txs[t].cutoff
  {
  }

  /** A pass is dated at its begin. */
  lemma PassIsDatedAtBegin(c: Catalog, s: Sys, t: TxId, tx: Tx, s': Sys)
    requires c.Valid() && Step(c, s, Begin(t, tx), s') && tx.Cleaning?
    ensures s'.txs[t].cutoff == s.clock && !s'.txs[t].scanned
  {
  }

  // ---------- refusals ----------

  predicate Refused(tx: Tx) { tx.Done? && !Wrote(tx.out) }

  /** Another request has used the key or the seat since this create looked for it. */
  ghost predicate Overtaken(db: Database, tx: Tx)
    requires tx.Creating?
  {
    || (tx.cpc != KeyLookup && KeyHolder(db, tx.a.key).Some?)
    || (tx.cpc !in {KeyLookup, SeatLock} && SeatHolder(db, tx.a.schedule, tx.a.seat) != tx.found)
  }

  /** A create is refused only where the atomic create would be, and with its answer unless
      it was overtaken. */
  lemma CreateRefusal(c: Catalog, s: Sys, t: TxId, ch: Choice)
    requires Safe(c, s) && CanRun(s, t, ch) && s.txs[t].Creating?
    ensures var tx, tx' := s.txs[t], Next(c, s, t, ch).txs[t];
      var hits := if tx.cpc == OverlapQuery then OverlapHits(c, s.db, tx.a.user, tx.a.schedule) else {};
      var verdict := CreateVerdict(c, s.db, tx.a, hits);
      Refused(tx') ==> verdict.Some? && (!Overtaken(s.db, tx) ==> verdict.value == tx'.out)
  {
    var tx := s.txs[t];
    assert Knows(c, s.db, s.gateway, s.clock, tx);
    var row := SeatHolder(s.db, tx.a.schedule, tx.a.seat);
    if row.Some? {
      assert HoldsSeatRow(s.db, tx.a.schedule, tx.a.seat, row.value);
      EveryBookingHasChildren(c, s.db, s.gateway.outcomes, row.value);
    }
  }

  /** A pay is refused exactly as the atomic pay with the same decision time would be; when
      the key was taken after the lookup the insert fails instead. */
  lemma PayRefusal(c: Catalog, s: Sys, t: TxId, ch: Choice)
    requires Safe(c, s) && CanRun(s, t, ch) && s.txs[t].Paying?
    ensures var tx, tx' := s.txs[t], Next(c, s, t, ch).txs[t];
      var verdict := PayVerdict(s.db, tx.b, tx.user, tx.key, if tx.ppc in {LockPay, CheckPay} then s.clock else tx.at);
      Refused(tx') ==> if tx.ppc == PaymentIndex then tx'.out == ServerError && verdict == Some(Found(tx.b))
                       else verdict == Some(tx'.out)
  {
    assert Knows(c, s.db, s.gateway, s.clock, s.txs[t]);
  }

  lemma RefundRefusal(c: Catalog, s: Sys, t: TxId, ch: Choice)
    requires Safe(c, s) && CanRun(s, t, ch) && s.txs[t].Refunding?
    ensures var tx, tx' := s.txs[t], Next(c, s, t, ch).txs[t];
      Refused(tx') ==> RefundVerdict(c, s.db, tx.b, tx.user, s.clock) == Some(tx'.out)
  {
    var tx := s.txs[t];
    assert Knows(c, s.db, s.gateway, s.clock, tx);
    if tx.rpc == CallRefund {
      SuccessRefExists(c, s.db, s.gateway.outcomes, tx.b);
    }
  }

  // ---------- whole runs ----------

  ghost function Ops(tr: seq<Sys>, acts: seq<Act>, n: nat): seq<Op>
    requires n <= |acts| && |tr| == |acts| + 1
  {
    if n == 0 then []
    else
      var op := OpOf(tr[n - 1], acts[n - 1]);
      Ops(tr, acts, n - 1) + if op.Some? then [op.value] else []
  }

  /** The visible states of a run with stuttering left out. */
  ghost function Visibles(tr: seq<Sys>, acts: seq<Act>, n: nat): seq<State>
    requires n <= |acts| && |tr| == |acts| + 1
  {
    if n == 0 then [Visible(tr[0])]
    else Visibles(tr, acts, n - 1) + if OpOf(tr[n - 1], acts[n - 1]).Some? then [Visible(tr[n])] else []
  }

  /** Main theorem: in commit order, every run is a serial run that ends in the same
      tables, gateway and clock. */
  lemma {:induction false} RunIsSerial(c: Catalog, tr: seq<Sys>, acts: seq<Act>, n: nat)
    requires Run(c, tr, acts) && n <= |acts|
    ensures var states, ops := Visibles(tr, acts, n), Ops(tr, acts, n);
      SerialRun(c, states, ops) && states[|ops|] == Visible(tr[n])
  {
    if n > 0 {
      RunIsSerial(c, tr, acts, n - 1);
      RunIsSafe(c, tr, acts, n - 1);
      StepRefines(c, tr[n - 1], acts[n - 1], tr[n]);
      if OpOf(tr[n - 1], acts[n - 1]).Some? {
        SerialRunGrows(c, Visibles(tr, acts, n - 1), Ops(tr, acts, n - 1), OpOf(tr[n - 1], acts[n - 1]).value);
      }
    }
  }

  lemma SerialRunGrows(c: Catalog, states: seq<State>, ops: seq<Op>, op: Op)
    requires SerialRun(c, states, ops) && Enabled(c, states[|ops|], op)
    ensures SerialRun(c, states + [Exec(c, states[|ops|], op)], ops + [op])
  {
    var states', ops' := states + [Exec(c, states[|ops|], op)], ops + [op];
    forall i | 0 <= i < |ops'|
      ensures Enabled(c, states'[i], ops'[i]) && states'[i + 1] == Exec(c, states'[i], ops'[i])
    {
      assert i < |ops| ==> states'[i + 1] == states[i + 1];
    }
  }

  ghost function Seen(tr: seq<Sys>): seq<State> {
    seq(|tr|, k requires 0 <= k < |tr| => Visible(tr[k]))
  }

  lemma StepsExtend(c: Catalog, tr: seq<Sys>, acts: seq<Act>)
    requires Path(c, tr, acts) && Safe(c, tr[0])
    ensures forall k | 0 <= k < |acts| :: Extends(Seen(tr)[k], Seen(tr)[k + 1])
  {
    forall k | 0 <= k < |acts|
      ensures Extends(Seen(tr)[k], Seen(tr)[k + 1])
    {
      PathIsSafe(c, tr, acts, k);
      StepExtends(c, tr[k], acts[k], tr[k + 1]);
    }
  }

  lemma PathExtends(c: Catalog, tr: seq<Sys>, acts: seq<Act>, i: nat, j: nat)
    requires Path(c, tr, acts) && Safe(c, tr[0]) && i <= j < |tr|
    ensures Extends(Visible(tr[i]), Visible(tr[j]))
  {
    StepsExtend(c, tr, acts);
    ExtendsChain(Seen(tr), i, j);
  }

  lemma StepExtends(c: Catalog, s: Sys, act: Act, s': Sys)
    requires Safe(c, s) && Step(c, s, act, s')
    ensures Extends(Visible(s), Visible(s'))
  {
    StepRefines(c, s, act, s');
    var op := OpOf(s, act);
    if op.Some? {
      OpExtends(c, Visible(s), op.value);
    }
  }

  /** What the tables and the gateway hold at one point of a run is never undone later. */
  lemma RunOnlyExtends(c: Catalog, tr: seq<Sys>, acts: seq<Act>, i: nat, j: nat)
    requires Run(c, tr, acts) && i <= j < |tr|
    ensures Extends(Visible(tr[i]), Visible(tr[j]))
  {
    PathExtends(c, tr, acts, i, j);
  }
}
