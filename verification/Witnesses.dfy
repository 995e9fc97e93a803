/** Runs from empty tables in which the documentation's promises fail. */
module Witnesses {
  import opened Domain
  import opened Serial
  import opened Consistency
  import opened Guarantees
  import opened Machine
  import opened MachineSafety
  import opened OpenCreates
  import opened WriteSkew
  import opened Race
  import opened RunAlone
  import opened AdminStats
  import opened StatsReads
  import Sets

  const CATALOG := Catalog({SYSTEM_USER, 1, 2}, map[0 := "Express"], map[0 := Schedule(0, 10000, 20000)],
                           map[0 := Compartment(0, "A", "ac")],
                           map[0 := Seat(0, 1, "window"), 1 := Seat(0, 2, "aisle")])

  const EMPTY := Database(map[], map[], [])

  function BootState(): Sys { Sys(EMPTY, Gateway(map[], []), 0, map[]) }

  function Fresh(a: CreateArgs): Tx { Creating(a, KeyLookup, None, 0, 0) }

  predicate Known(a: CreateArgs) { a.user in {1, 2} && a.schedule == 0 && a.seat in {0, 1} }

  lemma EmptyIsValid(a: CreateArgs)
    requires Known(a)
    ensures ValidArgs(CATALOG, EMPTY, a)
  {
    assert forall b :: b !in OverlapHits(CATALOG, EMPTY, a.user, a.schedule);
  }

  lemma OneBegins(a: CreateArgs) returns (tr: seq<Sys>, acts: seq<Act>)
    requires Known(a)
    ensures Run(CATALOG, tr, acts) && tr[|acts|] == BootState().(txs := map[0 := Fresh(a)])
    ensures Safe(CATALOG, tr[|acts|]) && Ready(CATALOG, tr[|acts|], 0, a)
  {
    var s := BootState();
    var s1 := s.(txs := map[0 := Fresh(a)]);
    tr, acts := [s, s1], [Begin(0, Fresh(a))];
    assert Step(CATALOG, s, acts[0], s1);
    RunIsSafe(CATALOG, tr, acts, 1);
    EmptyIsValid(a);
  }

  /** Two creates of user 1 begin on empty tables. */
  lemma BothBegin(a: CreateArgs, b: CreateArgs) returns (tr: seq<Sys>, acts: seq<Act>)
    requires Known(a) && Known(b)
    ensures Run(CATALOG, tr, acts) && tr[|acts|] == BootState().(txs := map[0 := Fresh(a), 1 := Fresh(b)])
    ensures Safe(CATALOG, tr[|acts|]) && Ready(CATALOG, tr[|acts|], 0, a) && Ready(CATALOG, tr[|acts|], 1, b)
  {
    var tr0, acts0 := OneBegins(a);
    var s := tr0[|acts0|].(txs := map[0 := Fresh(a), 1 := Fresh(b)]);
    Append(CATALOG, tr0, acts0, Begin(1, Fresh(b)), s);
    tr, acts := tr0 + [s], acts0 + [Begin(1, Fresh(b))];
    RunIsSafe(CATALOG, tr, acts, |acts|);
    EmptyIsValid(b);
  }

  lemma BothCanSkew(s: Sys, a: CreateArgs, b: CreateArgs)
    requires a == CreateArgs(1, 0, 0, 0) && b == CreateArgs(1, 0, 1, 1)
    requires s == BootState().(txs := map[0 := Fresh(a), 1 := Fresh(b)])
    requires Safe(CATALOG, s) && Ready(CATALOG, s, 0, a) && Ready(CATALOG, s, 1, b)
    ensures TwoCreates(CATALOG, s, 0, a, 1, b)
  {
  }

  /** A user gets two overlapping journeys. */
  lemma OverlapSlipsThrough() returns (tr: seq<Sys>, acts: seq<Act>)
    ensures Run(CATALOG, tr, acts)
    ensures var last := tr[|acts|];
      && 0 in last.txs && 1 in last.txs
      && last.txs[0].Done? && last.txs[0].out.Created? && last.txs[1].Done? && last.txs[1].out.Created?
      && !DisjointFor(CATALOG, last.db, 1)
  {
    var a, b := CreateArgs(1, 0, 0, 0), CreateArgs(1, 0, 1, 1);
    var tr0, acts0 := BothBegin(a, b);
    BothCanSkew(tr0[|acts0|], a, b);
    tr, acts := SkewedRun(CATALOG, tr0, acts0, 0, a, 1, b);
  }

  // ---------- the 500 of a race ----------

  /** A create that found no row meets one at its seat index. */
  lemma IndexFails(c: Catalog, s: Sys, l: TxId, b: CreateArgs) returns (act: Act, s': Sys)
    requires c.Valid() && l in s.txs && s.txs[l].Creating? && s.txs[l].a == b && s.txs[l].found == None
    requires s.txs[l].cpc == SeatIndex && SeatHolder(s.db, b.schedule, b.seat).Some?
    requires forall u <- s.txs :: u != l ==> s.txs[u].Done?
    ensures act.Statement? && Step(c, s, act, s') && s' == s.(txs := s.txs[l := Done(ServerError)])
  {
    act, s' := Statement(l, Choice(0, Declined)), s.(txs := s.txs[l := Done(ServerError)]);
    assert NextCreate(c, s, s.txs[l], act.ch) == (s.db, Done(ServerError));
  }

  /** The winner is at its commit and the loser at its seat index: both can run. */
  lemma LoserFails(c: Catalog, s: Sys, w: TxId, a: CreateArgs, l: TxId, b: CreateArgs)
      returns (act: Act, s1: Sys, act': Act, s2: Sys)
    requires Safe(c, s) && w != l && Rivals(a, b) && Ready(c, s, w, a) && Ready(c, s, l, b)
    requires s.txs[w].cpc == CommitCreate && s.txs[l].cpc == SeatIndex && s.txs.Keys == {w, l}
    ensures act.Statement? && act'.Statement? && Step(c, s, act, s1) && Step(c, s1, act', s2)
    ensures w in s2.txs && l in s2.txs && s2.txs[w] == Done(Created(s.txs[w].id)) && s2.txs[l] == Done(ServerError)
  {
    act, s1 := ReadyCommits(c, s, w, a);
    assert HoldsSeatRow(s1.db, b.schedule, b.seat, s.txs[w].id);
    act', s2 := IndexFails(c, s1, l, b);
  }

  /** The loser takes its key and then waits for the winner's seat. */
  lemma LosingRun(c: Catalog, tr: seq<Sys>, acts: seq<Act>, w: TxId, a: CreateArgs, l: TxId, b: CreateArgs)
      returns (tr': seq<Sys>, acts': seq<Act>)
    requires Path(c, tr, acts) && Safe(c, tr[|acts|]) && tr[|acts|].txs.Keys == {w, l} && w != l && Rivals(a, b)
    requires Ready(c, tr[|acts|], w, a) && Ready(c, tr[|acts|], l, b)
    requires tr[|acts|].txs[w].cpc == KeyLookup && tr[|acts|].txs[l].cpc == KeyLookup
    ensures Path(c, tr', acts') && tr'[0] == tr[0]
    ensures var last := tr'[|acts'|];
      && w in last.txs && l in last.txs
      && last.txs[w].Done? && last.txs[w].out.Created? && last.txs[l] == Done(ServerError)
  {
    var tr1, acts1 := RunUpTo(c, tr, acts, l, b, SeatIndex);
    var tr2, acts2 := RunUpTo(c, tr1, acts1, w, a, CommitCreate);
    var act, s1, act', s2 := LoserFails(c, tr2[|acts2|], w, a, l, b);
    Append(c, tr2, acts2, act, s1);
    Append(c, tr2 + [s1], acts2 + [act], act', s2);
    tr', acts' := tr2 + [s1] + [s2], acts2 + [act] + [act'];
  }

  /** The loser of a race gets the 500 of a broken constraint, not the documented 409. */
  lemma LoserGetsServerError() returns (tr: seq<Sys>, acts: seq<Act>)
    ensures Run(CATALOG, tr, acts)
    ensures var last := tr[|acts|];
      && 0 in last.txs && 1 in last.txs
      && last.txs[0].Done? && last.txs[0].out.Created? && last.txs[1] == Done(ServerError)
         && StatusCode(ServerError) == 500
  {
    var a, b := CreateArgs(1, 0, 0, 0), CreateArgs(1, 0, 0, 1);
    var tr0, acts0 := BothBegin(a, b);
    tr, acts := LosingRun(CATALOG, tr0, acts0, 0, a, 1, b);
  }

  // ---------- requests one after the other ----------

  /** A run that has come to rest; transaction ids below n are used. */
  ghost predicate Rests(c: Catalog, tr: seq<Sys>, acts: seq<Act>, n: TxId) {
    Run(c, tr, acts) && Quiet(tr[|acts|]) && forall u <- tr[|acts|].txs :: u < n
  }

  /** The next request has come to the answer out and left the tables db. */
  ghost predicate Follows(c: Catalog, tr: seq<Sys>, acts: seq<Act>, tr': seq<Sys>, acts': seq<Act>, n: TxId,
        db: Database, out: Outcome) {
    && Rests(c, tr, acts, n) && Rests(c, tr', acts', n + 1) && tr <= tr'
    && var s, s' := tr[|acts|], tr'[|acts'|];
    && s'.db == db && s'.clock == s.clock && n in s'.txs && s'.txs[n] == Done(out)
    && forall u <- s.txs :: u in s'.txs && s'.txs[u] == s.txs[u]
  }

  lemma EndFollows(c: Catalog, tr: seq<Sys>, acts: seq<Act>, tr': seq<Sys>, acts': seq<Act>, n: TxId)
    requires Rests(c, tr, acts, n) && Ends(c, tr, acts, tr', acts', n)
    ensures Follows(c, tr, acts, tr', acts', n, tr'[|acts'|].db, tr'[|acts'|].txs[n].out)
  {
    var s, s' := tr[|acts|], tr'[|acts'|];
    forall u <- s.txs
      ensures u in s'.txs && s'.txs[u] == s.txs[u]
    {
      assert (s'.txs - {n})[u] == (s.txs - {n})[u];
    }
  }

  lemma ThenCreate(c: Catalog, tr: seq<Sys>, acts: seq<Act>, n: TxId, a: CreateArgs, id: BookingId)
      returns (tr': seq<Sys>, acts': seq<Act>)
    requires Rests(c, tr, acts, n) && id !in tr[|acts|].db.bookings
    ensures var r := CreateNow(c, tr[|acts|].db, a, tr[|acts|].clock, id); Follows(c, tr, acts, tr', acts', n, r.0, r.1)
    ensures tr'[|acts'|].gateway == tr[|acts|].gateway
  {
    RunIsSafe(c, tr, acts, |acts|);
    tr', acts' := CreateRunsAlone(c, tr, acts, n, a, id);
    EndFollows(c, tr, acts, tr', acts', n);
  }

  /** The gateway decides a key that it does not know yet as charge says, and a key that has
      paid as it did then. */
  lemma ThenPay(c: Catalog, tr: seq<Sys>, acts: seq<Act>, n: TxId, b: BookingId, user: UserId, key: Key, charge: Charge)
      returns (tr': seq<Sys>, acts': seq<Act>)
    requires Rests(c, tr, acts, n)
    requires key !in tr[|acts|].gateway.outcomes ||
             (key in tr[|acts|].db.payments && tr[|acts|].db.payments[key].charge == charge)
    ensures var s := tr[|acts|];
      var r := Pay(s.db, b, user, key, charge, s.clock, s.clock);
      Follows(c, tr, acts, tr', acts', n, r.0, r.1)
  {
    RunIsSafe(c, tr, acts, |acts|);
    var s := tr[|acts|];
    if key in s.db.payments {
      assert PaymentOk(s.db, s.gateway.outcomes, key);
    }
    tr', acts' := PayRunsAlone(c, tr, acts, n, b, user, key, charge);
    EndFollows(c, tr, acts, tr', acts', n);
  }

  lemma ThenRefund(c: Catalog, tr: seq<Sys>, acts: seq<Act>, n: TxId, b: BookingId, user: UserId)
      returns (tr': seq<Sys>, acts': seq<Act>)
    requires Rests(c, tr, acts, n)
    ensures var s := tr[|acts|];
      var r := Refund(c, s.db, b, user, s.clock, s.clock);
      Follows(c, tr, acts, tr', acts', n, r.0, r.1)
  {
    RunIsSafe(c, tr, acts, |acts|);
    tr', acts' := RefundRunsAlone(c, tr, acts, n, b, user);
    EndFollows(c, tr, acts, tr', acts', n);
  }

  /** Time passes and then a pass runs; it changes the rows of the tables as row b shows. */
  lemma ThenLatePass(c: Catalog, tr: seq<Sys>, acts: seq<Act>, n: TxId, to: Time, b: BookingId)
      returns (tr': seq<Sys>, acts': seq<Act>)
    requires Rests(c, tr, acts, n) && tr[|acts|].clock <= to && b in tr[|acts|].db.bookings
    ensures Rests(c, tr', acts', n + 1) && tr'[|acts'|].clock == to
    ensures var s, s' := tr[|acts|], tr'[|acts'|];
      && n in s'.txs && s'.txs[n] == Done(Swept)
      && s'.db.payments == s.db.payments && s'.db.bookings.Keys == s.db.bookings.Keys
      && s'.db.bookings[b] == if Stale(s.db.bookings[b], to)
         then s.db.bookings[b].(status := Cancelled, cancelledAt := Some(to))
                              else s.db.bookings[b]
  {
    var s := tr[|acts|].(clock := to);
    Append(c, tr, acts, Act.Tick(to), s);
    var tr1, acts1 := tr + [s], acts + [Act.Tick(to)];
    RunIsSafe(c, tr1, acts1, |acts1|);
    var rows;
    tr', acts', rows := PassRunsAlone(c, tr1, acts1, n);
    EndFollows(c, tr1, acts1, tr', acts', n);
    SweepEffect(s.db, rows, to);
  }

  // ---------- one booking ----------

  const HOLDER := CreateArgs(1, 0, 0, 0)

  function Hold(): Booking { Booking(1, 0, 0, Reserved, 0, Some(HOLD_SECONDS), None, None, 150000) }

  function HoldDb(): Database { Database(map[7 := Hold()], map[], [ReserveEntry(7, 1)]) }

  /** The tables after a pay with key 5. */
  ghost function SettledDb(charge: Charge): Database { PayWrite(HoldDb(), 7, 1, 5, charge, 0) }

  lemma HoldIsMade() returns (tr: seq<Sys>, acts: seq<Act>)
    ensures Rests(CATALOG, tr, acts, 1) && tr[|acts|].clock == 0
    ensures tr[|acts|].db == HoldDb() && tr[|acts|].gateway.outcomes == map[]
  {
    EmptyIsValid(HOLDER);
    tr, acts := ThenCreate(CATALOG, [BootState()], [], 0, HOLDER, 7);
    assert CreateWrite(CATALOG, EMPTY, HOLDER, None, 0, 7) == HoldDb();
  }

  lemma HoldIsSettled(charge: Charge) returns (tr: seq<Sys>, acts: seq<Act>)
    ensures Rests(CATALOG, tr, acts, 2) && tr[|acts|].clock == 0 && tr[|acts|].db == SettledDb(charge)
    ensures 1 in tr[|acts|].txs && tr[|acts|].txs[1] == Done(Settled(7))
  {
    tr, acts := HoldIsMade();
    tr, acts := ThenPay(CATALOG, tr, acts, 1, 7, 1, 5, charge);
  }

  // ---------- a retired seat ----------

  function GoneHold(): Booking { Hold().(status := Cancelled, cancelledAt := Some(HOLD_SECONDS + 1)) }

  lemma SeatIsRetired() returns (tr: seq<Sys>, acts: seq<Act>)
    ensures Rests(CATALOG, tr, acts, 2)
    ensures tr[|acts|].db.bookings == map[7 := GoneHold()]
  {
    tr, acts := HoldIsMade();
    tr, acts := ThenLatePass(CATALOG, tr, acts, 1, HOLD_SECONDS + 1, 7);
    assert forall b <- tr[|acts|].db.bookings :: b == 7;
  }

  /** A hold runs out, a pass cancels it, and the seat, which the documentation says can be
      booked again, answers the next request with a server error. */
  lemma RetiredSeatFails() returns (tr: seq<Sys>, acts: seq<Act>)
    ensures Run(CATALOG, tr, acts)
    ensures var last := tr[|acts|];
      && 7 in last.db.bookings && last.db.bookings[7].status == Cancelled && last.db.bookings[7].seat == 0
      && 2 in last.txs && last.txs[2] == Done(ServerError)
  {
    tr, acts := SeatIsRetired();
    RetiredAnswer(tr, acts, CreateArgs(1, 0, 0, 1));
    tr, acts := ThenCreate(CATALOG, tr, acts, 2, CreateArgs(1, 0, 0, 1), 8);
  }

  lemma RetiredAnswer(tr: seq<Sys>, acts: seq<Act>, a: CreateArgs)
    requires Run(CATALOG, tr, acts) && a.schedule == 0 && a.seat == 0 && a.key != 0
    requires tr[|acts|].db.bookings == map[7 := GoneHold()]
    ensures CreateNow(CATALOG, tr[|acts|].db, a, tr[|acts|].clock, 8) == (tr[|acts|].db, ServerError)
  {
    var s := tr[|acts|];
    RunIsSafe(CATALOG, tr, acts, |acts|);
    OnlyCancelled(s.db, a);
    RetiredSeatStaysBlocked(CATALOG, s.db, s.gateway.outcomes, a, s.clock, 8, 7);
  }

  lemma OnlyCancelled(db: Database, a: CreateArgs)
    requires db.bookings.Keys == {7} && db.bookings[7].status == Cancelled && db.bookings[7].key != a.key
    requires db.bookings[7].schedule == a.schedule && db.bookings[7].seat == a.seat
    ensures KeyHolder(db, a.key).None? && OverlapHits(CATALOG, db, a.user, a.schedule) == {}
    ensures HoldsSeatRow(db, a.schedule, a.seat, 7)
  {
    assert 7 in db.bookings && forall b <- db.bookings :: b == 7;
    assert forall b :: b !in OverlapHits(CATALOG, db, a.user, a.schedule);
  }

  // ---------- payments ----------

  /** A payment is settled, and the client's retry with the same key is refused. */
  lemma PayRetryFails() returns (tr: seq<Sys>, acts: seq<Act>)
    ensures Run(CATALOG, tr, acts)
    ensures var last := tr[|acts|];
      && 1 in last.txs && last.txs[1] == Done(Settled(7)) && 2 in last.txs && last.txs[2] == Done(BadState)
  {
    tr, acts := HoldIsSettled(Accepted(9));
    tr, acts := ThenPay(CATALOG, tr, acts, 2, 7, 1, 5, Accepted(9));
  }

  const OTHER := CreateArgs(2, 0, 1, 1)

  ghost function TwoBookingsDb(): Database { CreateWrite(CATALOG, SettledDb(Accepted(9)), OTHER, None, 0, 8) }

  lemma OtherSeatIsFree()
    ensures CreateNow(CATALOG, SettledDb(Accepted(9)), OTHER, 0, 8) == (TwoBookingsDb(), Created(8))
  {
    var db := SettledDb(Accepted(9));
    assert forall b <- db.bookings :: b == 7 && db.bookings[b].user == 1;
    assert forall b :: b !in OverlapHits(CATALOG, db, OTHER.user, OTHER.schedule);
  }

  lemma OtherPaysNothing()
    ensures var db := TwoBookingsDb();
      && 8 in db.bookings && db.bookings[8].status == Reserved && PaymentsOf(db, 8) == {}
      && 5 in db.payments && db.payments[5].charge == Accepted(9) && PayVerdict(db, 8, 2, 5, 0) == Some(Found(8))
  {
    var db := TwoBookingsDb();
    assert forall k <- db.payments :: k == 5;
    assert forall k :: k !in PaymentsOf(db, 8);
  }

  /** A payment key that has paid one booking is used for another: the answer is a success,
      and the other booking stays unpaid. */
  lemma PayReturnsEarly() returns (tr: seq<Sys>, acts: seq<Act>)
    ensures Run(CATALOG, tr, acts)
    ensures var last := tr[|acts|];
      && 3 in last.txs && last.txs[3] == Done(Found(8))
      && 8 in last.db.bookings && last.db.bookings[8].status == Reserved && PaymentsOf(last.db, 8) == {}
  {
    tr, acts := HoldIsSettled(Accepted(9));
    OtherSeatIsFree();
    tr, acts := ThenCreate(CATALOG, tr, acts, 2, OTHER, 8);
    OtherPaysNothing();
    tr, acts := ThenPay(CATALOG, tr, acts, 3, 8, 2, 5, Accepted(9));
  }

  /** A payment is declined, which cancels the booking at once; the pass that runs after its
      expiry leaves it alone, and its trail never gets a cleanup entry. */
  lemma DeclinedIsNotSwept() returns (tr: seq<Sys>, acts: seq<Act>)
    ensures Run(CATALOG, tr, acts)
    ensures var last := tr[|acts|];
      && last.clock > HOLD_SECONDS && 2 in last.txs && last.txs[2] == Done(Swept)
      && 7 in last.db.bookings && last.db.bookings[7].status == Cancelled
      && 5 in last.db.payments && last.db.payments[5].charge == Declined && ExpireEntry(7) !in last.db.audit
  {
    tr, acts := HoldIsSettled(Declined);
    tr, acts := ThenLatePass(CATALOG, tr, acts, 2, HOLD_SECONDS + 1, 7);
    NoCleanupEntry(tr, acts, 7, 5);
  }

  lemma NoCleanupEntry(tr: seq<Sys>, acts: seq<Act>, b: BookingId, key: Key)
    requires Run(CATALOG, tr, acts) && key in tr[|acts|].db.payments && tr[|acts|].db.payments[key].booking == b
    ensures ExpireEntry(b) !in tr[|acts|].db.audit
  {
    RunIsSafe(CATALOG, tr, acts, |acts|);
    PaidNeverExpires(CATALOG, tr[|acts|].db, tr[|acts|].gateway.outcomes, b, key);
  }

  // ---------- statistics ----------

  lemma CanBeRefunded()
    ensures RefundVerdict(CATALOG, SettledDb(Accepted(9)), 7, 1, 0) == None
  {
    var db := SettledDb(Accepted(9));
    Sets.Contained(Successes(db, 7), {5});
    Sets.Smaller(Successes(db, 7), {5});
  }

  lemma OneRefunded()
    ensures var db := SettledDb(Accepted(9));
      |WithStatus(db, Confirmed)| == 1 && |WithStatus(RefundWrite(db, 7, 1, 0), Refunded)| == 1 && |db.bookings| == 1
  {
    var db := SettledDb(Accepted(9));
    assert WithStatus(db, Confirmed) == {7} && WithStatus(RefundWrite(db, 7, 1, 0), Refunded) == {7};
    assert db.bookings.Keys == {7};
  }

  /** A refund between two reads of the statistics is counted as confirmed and as refunded. */
  lemma RefundCountedTwice() returns (tr: seq<Sys>, acts: seq<Act>, at: Reads)
    ensures Run(CATALOG, tr, acts) && InOrder(at, |tr|)
    ensures var r := Reported(tr, at); r.total == 1 && r.confirmed == 1 && r.refunded == 1
  {
    var tr0, acts0 := HoldIsSettled(Accepted(9));
    CanBeRefunded();
    OneRefunded();
    tr, acts := ThenRefund(CATALOG, tr0, acts0, 2, 7, 1);
    at := Reads(|acts0|, |acts0|, |acts0|, |acts|, |acts|);
    assert tr[|acts0|] == tr0[|acts0|];
  }
}
