/** Refunds against the calls that the gateway received. The calls carry no key, so they are
    counted by the reference of the payment they give back. */
module RefundCalls {
  import opened Domain
  import opened Serial
  import opened SerialRuns
  import opened Guarantees
  import opened Machine
  import opened MachineSafety
  import opened Refinement
  import opened Journeys
  import Sets

  function Calls(refunds: seq<Ref>, ref: Ref): nat {
    multiset(refunds)[ref]
  }

  predicate HasCalled(tx: Tx, b: BookingId) {
    tx.Refunding? && tx.rpc == CommitRefund && tx.b == b
  }

  /** Booking b was paid with the reference, and is refunded or about to be. */
  ghost predicate Claims(s: Sys, ref: Ref, b: BookingId) {
    && b in s.db.bookings && SuccessRef(s.db, b) == Some(ref)
    && (s.db.bookings[b].status == Refunded || exists t <- s.txs :: HasCalled(s.txs[t], b))
  }

  ghost function Claimants(s: Sys, ref: Ref): set<BookingId> {
    set b | b in s.db.bookings && Claims(s, ref, b)
  }

  ghost function RefundedWith(db: Database, ref: Ref): set<BookingId> {
    set b | b in db.bookings && db.bookings[b].status == Refunded && SuccessRef(db, b) == Some(ref)
  }

  /** A paid booking keeps its reference. */
  lemma RefStays(c: Catalog, s: State, s': State, b: BookingId)
    requires Consistent(c, s.db, s.gateway.outcomes) && Consistent(c, s'.db, s'.gateway.outcomes) && Extends(s, s')
    requires b in s.db.bookings && s.db.bookings[b].status in {Confirmed, Refunded}
    ensures SuccessRef(s'.db, b) == SuccessRef(s.db, b)
  {
    assert Moves(s.db.bookings[b], s'.db.bookings[b]);
    var k := OnlySuccess(c, s.db, s.gateway.outcomes, b);
    var k' := OnlySuccess(c, s'.db, s'.gateway.outcomes, b);
    assert k in Successes(s'.db, b);
  }

  lemma OnlySuccess(c: Catalog, db: Database, outcomes: map<Key, Charge>, b: BookingId) returns (k: Key)
    requires Consistent(c, db, outcomes) && b in db.bookings && db.bookings[b].status in {Confirmed, Refunded}
    ensures Successes(db, b) == {k} && k in db.payments && db.payments[k].booking == b
    ensures db.payments[k].charge.Accepted? && SuccessRef(db, b) == Some(db.payments[k].charge.ref)
  {
    PaymentsMatchStatus(c, db, outcomes, b);
    k :| k in db.payments && Successes(db, b) == PaymentsOf(db, b) == {k};
    assert k in Successes(db, b) && AnyKey(Successes(db, b)) == Some(k);
  }

  /** The booking whose refund calls the gateway with the reference at this step. */
  ghost function NewClaim(s: Sys, act: Act, ref: Ref): set<BookingId> {
    if OpOf(s, act) == Some(RefundCall(ref)) then {s.txs[act.t].b} else {}
  }

  lemma RefundWasOpen(c: Catalog, s: Sys, act: Act, s': Sys, t: TxId, b: BookingId)
    requires c.Valid() && Step(c, s, act, s') && t in s'.txs && HasCalled(s'.txs[t], b)
    ensures t in s.txs && s.txs[t].Refunding? && s.txs[t].b == b
    ensures HasCalled(s.txs[t], b) || (act.Statement? && act.t == t && s.txs[t].rpc == CallRefund && s'.db == s.db)
  {
  }

  /** A booking whose refund has called was there, was confirmed, and had called before
      unless it calls at this step. */
  lemma CalledBefore(c: Catalog, s: Sys, act: Act, s': Sys, t: TxId, b: BookingId, ref: Ref)
    requires Safe(c, s) && Step(c, s, act, s') && t in s'.txs && HasCalled(s'.txs[t], b)
    requires SuccessRef(s'.db, b) == Some(ref)
    ensures b in s.db.bookings && s.db.bookings[b].status == Confirmed
    ensures (t in s.txs && HasCalled(s.txs[t], b)) || b in NewClaim(s, act, ref)
  {
    RefundWasOpen(c, s, act, s', t, b);
    assert Knows(c, s.db, s.gateway, s.clock, s.txs[t]);
    if !HasCalled(s.txs[t], b) {
      SuccessRefExists(c, s.db, s.gateway.outcomes, b);
      assert OpOf(s, act) == Some(RefundCall(ref));
    }
  }

  lemma RefundedBefore(c: Catalog, s: Sys, act: Act, s': Sys, b: BookingId)
    requires Safe(c, s) && Step(c, s, act, s') && b in s'.db.bookings && s'.db.bookings[b].status == Refunded
    ensures b in s.db.bookings
    ensures s.db.bookings[b].status == Refunded ||
            (s.db.bookings[b].status == Confirmed && exists t <- s.txs :: HasCalled(s.txs[t], b))
  {
    StepRefines(c, s, act, s');
    var op := OpOf(s, act);
    if op.Some? {
      if b !in s.db.bookings {
        OnlyCreateAddsRows(c, Visible(s), op.value, b);
      } else if s.db.bookings[b].status != Refunded {
        RefundedByRefund(c, Visible(s), op.value, b);
        assert HasCalled(s.txs[act.t], b) && Knows(c, s.db, s.gateway, s.clock, s.txs[act.t]);
      }
    }
  }

  lemma ClaimedBefore(c: Catalog, s: Sys, act: Act, s': Sys, ref: Ref, b: BookingId)
    requires Safe(c, s) && Safe(c, s') && Step(c, s, act, s') && Claims(s', ref, b)
    ensures Claims(s, ref, b) || b in NewClaim(s, act, ref)
  {
    StepExtends(c, s, act, s');
    if s'.db.bookings[b].status == Refunded {
      RefundedBefore(c, s, act, s', b);
    } else {
      var t :| t in s'.txs && HasCalled(s'.txs[t], b);
      CalledBefore(c, s, act, s', t, b, ref);
    }
    RefStays(c, Visible(s), Visible(s'), b);
  }

  lemma CallsGrow(c: Catalog, s: Sys, act: Act, s': Sys, ref: Ref)
    requires Safe(c, s) && Step(c, s, act, s')
    ensures Calls(s'.gateway.refunds, ref) == Calls(s.gateway.refunds, ref) + |NewClaim(s, act, ref)|
  {
    StepRefines(c, s, act, s');
  }

  lemma {:induction false} ClaimsAreCalled(c: Catalog, tr: seq<Sys>, acts: seq<Act>, n: nat, ref: Ref)
    requires Run(c, tr, acts) && n < |tr|
    ensures |Claimants(tr[n], ref)| <= Calls(tr[n].gateway.refunds, ref)
  {
    if n == 0 {
      Sets.Smaller(Claimants(tr[n], ref), {});
    } else {
      ClaimsAreCalled(c, tr, acts, n - 1, ref);
      RunIsSafe(c, tr, acts, n - 1);
      ClaimsGrow(c, tr[n - 1], acts[n - 1], tr[n], ref);
    }
  }

  /** Theorem: for every reference, the gateway has received at least as many refund calls as
      there are refunded bookings that were paid with it. */
  lemma RefundsAreCalled(c: Catalog, tr: seq<Sys>, acts: seq<Act>, n: nat, ref: Ref)
    requires Run(c, tr, acts) && n < |tr|
    ensures |RefundedWith(tr[n].db, ref)| <= Calls(tr[n].gateway.refunds, ref)
  {
    ClaimsAreCalled(c, tr, acts, n, ref);
    Sets.Smaller(RefundedWith(tr[n].db, ref), Claimants(tr[n], ref));
  }

  lemma ClaimsGrow(c: Catalog, s: Sys, act: Act, s': Sys, ref: Ref)
    requires Safe(c, s) && Step(c, s, act, s')
    ensures |Claimants(s', ref)| - Calls(s'.gateway.refunds, ref) <= |Claimants(s, ref)| - Calls(s.gateway.refunds, ref)
  {
    StepIsSafe(c, s, act, s');
    CallsGrow(c, s, act, s', ref);
    var before := Claimants(s, ref) + NewClaim(s, act, ref);
    forall b | b in Claimants(s', ref)
      ensures b in before
    {
      ClaimedBefore(c, s, act, s', ref, b);
    }
    Sets.Contained(Claimants(s', ref), before);
    Sets.Smaller(Claimants(s', ref), before);
  }

  /** A refunded booking has the reference of its one successful payment, so the calls for
      it are counted. */
  lemma RefundedHasRef(c: Catalog, tr: seq<Sys>, acts: seq<Act>, n: nat, b: BookingId)
    requires Run(c, tr, acts) && n < |tr| && b in tr[n].db.bookings && tr[n].db.bookings[b].status == Refunded
    ensures |Successes(tr[n].db, b)| == 1
    ensures var ref := SuccessRef(tr[n].db, b);
      ref.Some? && b in RefundedWith(tr[n].db, ref.value) && ref.value in tr[n].gateway.refunds
  {
    RunIsSafe(c, tr, acts, n);
    SuccessRefExists(c, tr[n].db, tr[n].gateway.outcomes, b);
    var ref := SuccessRef(tr[n].db, b).value;
    RefundsAreCalled(c, tr, acts, n, ref);
    Sets.Smaller({b}, RefundedWith(tr[n].db, ref));
  }

  /** The same in the columns of the tables, for any set of refunded rows with one reference. */
  lemma RefundedRowsAreCalled(c: Catalog, tr: seq<Sys>, acts: seq<Act>, n: nat, ref: Ref, rows: set<BookingId>)
    requires Run(c, tr, acts) && n < |tr|
    requires forall b <- rows :: b in tr[n].db.bookings && tr[n].db.bookings[b].status == Refunded
    requires forall b <- rows :: exists k <- tr[n].db.payments ::
               tr[n].db.payments[k].booking == b && tr[n].db.payments[k].charge == Accepted(ref)
    ensures |rows| <= multiset(tr[n].gateway.refunds)[ref]
  {
    var db := tr[n].db;
    RunIsSafe(c, tr, acts, n);
    forall b | b in rows
      ensures b in RefundedWith(db, ref)
    {
      var k :| k in db.payments && db.payments[k].booking == b && db.payments[k].charge == Accepted(ref);
      var only := OnlySuccess(c, db, tr[n].gateway.outcomes, b);
      assert k in Successes(db, b);
    }
    Sets.Contained(rows, RefundedWith(db, ref));
    Sets.Smaller(rows, RefundedWith(db, ref));
    RefundsAreCalled(c, tr, acts, n, ref);
  }
}
