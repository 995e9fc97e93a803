/** Waiting is acyclic, as long as a transaction is open some statement can run, and so all
    that is open can come to its end. */
module Deadlock {
  import opened Domain
  import opened Machine
  import opened MachineSafety
  import opened OpenCreates
  import Sets

  /** How far a transaction is along the order of locks: first a booking row, then the
      index entries in their fixed order. */
  function Stage(tx: Tx): nat {
    match tx
    case Creating(_, pc, _, _, _) =>
      (match pc
       case KeyLookup => 0
       case SeatLock => 0
       case OverlapQuery => 1
       case FlushDelete => 1
       case KeyIndex => 1
       case SeatIndex => 2
       case CommitCreate => 3)
    case Paying(_, _, _, pc, _, _, _) => if pc == LockPay then 0 else if pc == CommitPay then 2 else 1
    case Refunding(_, _, pc, _, _) => if pc == LockRefund then 0 else 1
    case Cleaning(_, _, _, _) => 1
    case Done(_) => 0
  }

  /** A chain of transactions in which each waits for the next. */
  ghost predicate WaitChain(s: Sys, chain: seq<TxId>) {
    && (forall i | 0 <= i < |chain| :: chain[i] in s.txs)
    && forall i | 0 <= i < |chain| - 1 :: WaitsFor(s, chain[i], chain[i + 1])
  }

  lemma {:induction false} ChainsClimb(s: Sys, chain: seq<TxId>)
    requires WaitChain(s, chain) && |chain| >= 2
    ensures Stage(s.txs[chain[0]]) < Stage(s.txs[chain[|chain| - 1]])
  {
    var n := |chain| - 1;
    assert WaitsFor(s, chain[n - 1], chain[n]);
    if n > 1 {
      ChainsClimb(s, chain[..n]);
    }
  }

  /** No chain of waits comes back to its start, and a cleanup pass is never at its start. */
  lemma NoWaitCycle(s: Sys, chain: seq<TxId>)
    requires WaitChain(s, chain) && |chain| >= 2
    ensures chain[0] != chain[|chain| - 1] && !s.txs[chain[0]].Cleaning?
  {
    ChainsClimb(s, chain);
    assert WaitsFor(s, chain[0], chain[1]);
  }

  lemma {:induction false} Furthest(s: Sys, top: nat) returns (t: TxId)
    requires exists u <- s.txs :: !s.txs[u].Done?
    requires forall u <- s.txs :: !s.txs[u].Done? ==> Stage(s.txs[u]) <= top
    ensures t in s.txs && !s.txs[t].Done?
    ensures forall u <- s.txs :: !s.txs[u].Done? ==> Stage(s.txs[u]) <= Stage(s.txs[t])
  {
    if u :| u in s.txs && !s.txs[u].Done? && Stage(s.txs[u]) == top {
      t := u;
    } else {
      t := Furthest(s, top - 1);
    }
  }

  lemma FurthestIsUnblocked(s: Sys, t: TxId)
    requires t in s.txs && !s.txs[t].Done?
    requires forall u <- s.txs :: !s.txs[u].Done? ==> Stage(s.txs[u]) <= Stage(s.txs[t])
    ensures Unblocked(s, t)
  {
    forall u <- s.txs | u != t
      ensures !Blocks(s.db, s.txs[t], s.txs[u])
    {
      assert Blocks(s.db, s.txs[t], s.txs[u]) ==> Stage(s.txs[t]) < Stage(s.txs[u]);
    }
  }

  /** While a transaction is open, some open transaction has a statement it can run now. */
  lemma SomeoneCanRun(c: Catalog, s: Sys)
    requires Safe(c, s)
    requires exists u <- s.txs :: !s.txs[u].Done?
    ensures exists t, ch :: CanRun(s, t, ch)
  {
    var t := Furthest(s, 3);
    var tx := s.txs[t];
    FurthestIsUnblocked(s, t);
    var id := FreshId(s);
    if tx.Cleaning? && tx.pending != {} {
      var next: BookingId := Sets.Pick(tx.pending);
      assert CanRun(s, t, Choice(next, Declined));
    } else {
      var key := if tx.Paying? then tx.key else 0;
      var charge := if key in s.gateway.outcomes then s.gateway.outcomes[key] else Declined;
      assert CanRun(s, t, Choice(id, charge));
    }
  }

  /** Statements that a transaction still has to run, at most. */
  ghost function Left(db: Database, tx: Tx): nat {
    match tx
    case Creating(_, pc, _, _, _) =>
      (match pc
       case KeyLookup => 7
       case SeatLock => 6
       case OverlapQuery => 5
       case FlushDelete => 4
       case KeyIndex => 3
       case SeatIndex => 2
       case CommitCreate => 1)
    case Paying(_, _, _, pc, _, _, _) =>
      (match pc
       case LockPay => 6
       case CheckPay => 5
       case PaymentLookup => 4
       case CallCharge => 3
       case PaymentIndex => 2
       case CommitPay => 1)
    case Refunding(_, _, pc, _, _) =>
      (match pc
       case LockRefund => 4
       case CheckRefund => 3
       case CallRefund => 2
       case CommitRefund => 1)
    case Cleaning(scanned, _, pending, _) => if scanned then |pending| + 1 else |db.bookings| + 2
    case Done(_) => 0
  }

  /** Every statement brings its transaction closer to its end. */
  lemma EachStatementAdvances(c: Catalog, s: Sys, t: TxId, ch: Choice)
    requires c.Valid() && CanRun(s, t, ch)
    ensures Left(Next(c, s, t, ch).db, Next(c, s, t, ch).txs[t]) < Left(s.db, s.txs[t])
  {
    var tx := s.txs[t];
    match tx
    case Creating(_, _, _, _, _) => assert Left(s.db, NextCreate(c, s, tx, ch).1) < Left(s.db, tx);
    case Paying(_, _, _, _, _, _, _) => assert Left(s.db, NextPay(s, tx, ch).2) < Left(s.db, tx);
    case Refunding(_, _, _, _, _) => assert Left(s.db, NextRefund(c, s, tx).2) < Left(s.db, tx);
    case Cleaning(_, _, _, _) => CleaningAdvances(s, t, tx, ch);
    case Done(_) =>
  }

  lemma CleaningAdvances(s: Sys, t: TxId, tx: Tx, ch: Choice)
    requires tx.Cleaning? && (tx.scanned && tx.pending != {} ==> ch.id in tx.pending)
    ensures Left(NextClean(s, t, tx, ch).0, NextClean(s, t, tx, ch).1) < Left(s.db, tx)
  {
    if !tx.scanned {
      var pending := NextClean(s, t, tx, ch).1.pending;
      assert pending <= s.db.bookings.Keys;
      Sets.Smaller(pending, s.db.bookings.Keys);
    }
  }

  // ---------- everything can end ----------

  ghost function Creators(s: Sys): set<TxId> {
    set t | t in s.txs && s.txs[t].Creating?
  }

  ghost function LeftOf(s: Sys, t: TxId): int {
    if t in s.txs then Left(s.db, s.txs[t]) else 0
  }

  ghost function Work(s: Sys): int {
    Sets.Sum(s.txs.Keys, (t: TxId) => LeftOf(s, t))
  }

  lemma WorkIsNat(s: Sys)
    ensures Work(s) >= 0
  {
    Sets.SumAtLeast(s.txs.Keys, (t: TxId) => LeftOf(s, t), 0);
  }

  /** A statement other than the commit of a create adds no row. */
  lemma SameRows(c: Catalog, s: Sys, t: TxId, ch: Choice)
    requires Safe(c, s) && CanRun(s, t, ch) && !(s.txs[t].Creating? && s.txs[t].cpc == CommitCreate)
    ensures Next(c, s, t, ch).db.bookings.Keys == s.db.bookings.Keys
  {
    assert Knows(c, s.db, s.gateway, s.clock, s.txs[t]);
  }

  /** A commit of a create leaves fewer creates; any other statement leaves less work. */
  lemma LessToDo(c: Catalog, s: Sys, t: TxId, ch: Choice)
    requires Safe(c, s) && CanRun(s, t, ch)
    ensures var s' := Next(c, s, t, ch);
      |Creators(s')| < |Creators(s)| || (|Creators(s')| <= |Creators(s)| && Work(s') < Work(s))
  {
    var s' := Next(c, s, t, ch);
    assert s'.txs.Keys == s.txs.Keys && forall u <- s.txs :: u != t ==> s'.txs[u] == s.txs[u];
    assert s'.txs[t].Creating? ==> s.txs[t].Creating?;
    Sets.Smaller(Creators(s'), Creators(s));
    if s.txs[t].Creating? && s.txs[t].cpc == CommitCreate {
      assert t in Creators(s) && t !in Creators(s');
      Sets.Smaller(Creators(s'), Creators(s) - {t});
    } else {
      SameRows(c, s, t, ch);
      LessWork(c, s, t, ch);
    }
  }

  lemma SameLeft(s: Sys, s': Sys, u: TxId)
    requires u in s.txs && u in s'.txs && s'.txs[u] == s.txs[u] && s'.db.bookings.Keys == s.db.bookings.Keys
    ensures LeftOf(s', u) == LeftOf(s, u)
  {
    assert |s'.db.bookings| == |s'.db.bookings.Keys| == |s.db.bookings.Keys|;
  }

  lemma LessWork(c: Catalog, s: Sys, t: TxId, ch: Choice)
    requires c.Valid() && CanRun(s, t, ch) && Next(c, s, t, ch).db.bookings.Keys == s.db.bookings.Keys
    requires Next(c, s, t, ch).txs.Keys == s.txs.Keys
    requires forall u <- s.txs :: u != t ==> Next(c, s, t, ch).txs[u] == s.txs[u]
    ensures Work(Next(c, s, t, ch)) < Work(s)
  {
    EachStatementAdvances(c, s, t, ch);
    LessForOne(s, Next(c, s, t, ch), t);
  }

  lemma LessForOne(s: Sys, s': Sys, t: TxId)
    requires s'.txs.Keys == s.txs.Keys && t in s.txs && s'.db.bookings.Keys == s.db.bookings.Keys
    requires forall u <- s.txs :: u != t ==> s'.txs[u] == s.txs[u]
    requires LeftOf(s', t) < LeftOf(s, t)
    ensures Work(s') < Work(s)
  {
    var before, after := (u: TxId) => LeftOf(s, u), (u: TxId) => LeftOf(s', u);
    Sets.SumSplit(s.txs.Keys, t, before);
    Sets.SumSplit(s.txs.Keys, t, after);
    forall u <- s.txs.Keys - {t}
      ensures before(u) == after(u)
    {
      SameLeft(s, s', u);
    }
    Sets.SumSame(s.txs.Keys - {t}, before, after);
  }

  /** Theorem: from every safe state, whatever is open and whoever waits, statements alone lead
      to a state in which every transaction has ended. */
  lemma {:induction false} EveryoneCanEnd(c: Catalog, tr: seq<Sys>, acts: seq<Act>)
      returns (tr': seq<Sys>, acts': seq<Act>)
    requires Path(c, tr, acts) && Safe(c, tr[|acts|])
    ensures Longer(c, tr, acts, tr', acts') && Quiet(tr'[|acts'|])
    ensures tr'[|acts'|].txs.Keys == tr[|acts|].txs.Keys
    decreases |Creators(tr[|acts|])|, Work(tr[|acts|])
  {
    var s := tr[|acts|];
    if u :| u in s.txs && !s.txs[u].Done? {
      SomeoneCanRun(c, s);
      var t, ch :| CanRun(s, t, ch);
      var s' := Next(c, s, t, ch);
      Append(c, tr, acts, Statement(t, ch), s');
      StatementIsSafe(c, s, t, ch);
      LessToDo(c, s, t, ch);
      WorkIsNat(s);
      tr', acts' := EveryoneCanEnd(c, tr + [s'], acts + [Statement(t, ch)]);
      LongerIsTransitive(c, tr, acts, tr + [s'], acts + [Statement(t, ch)], tr', acts');
    } else {
      tr', acts' := tr, acts;
    }
  }
}
