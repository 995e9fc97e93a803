/** The journey rule under interleaving: it holds for users whose open creates ask for
    journeys that do not overlap, and what exactly decides it otherwise. */
module Journeys {
  import opened Domain
  import opened Serial
  import opened Consistency
  import opened SerialRuns
  import opened Machine
  import opened MachineSafety
  import opened Refinement
  import Sets

  /** The create asks for a journey of the same user that overlaps the schedule. */
  predicate Clash(c: Catalog, a: CreateArgs, user: UserId, schedule: ScheduleId) {
    && a.user == user && a.schedule in c.schedules && schedule in c.schedules
    && Overlaps(c.schedules[a.schedule], c.schedules[schedule])
  }

  /** The user never has two creates open at once for journeys that overlap; a user with at
      most one open create never has. */
  ghost predicate NoRivalsOf(c: Catalog, s: Sys, user: UserId) {
    forall t, u | t in s.txs && u in s.txs && t != u && CreatesFor(s.txs[t], user) && CreatesFor(s.txs[u], user) ::
      !Clash(c, s.txs[t].a, user, s.txs[u].a.schedule)
  }

  predicate CreatesFor(tx: Tx, user: UserId) {
    tx.Creating? && tx.a.user == user
  }

  predicate PastOverlapCheck(tx: Tx) {
    tx.Creating? && tx.cpc in {FlushDelete, KeyIndex, SeatIndex, CommitCreate}
  }

  /** What every create of the user that passed its check has seen is still what the query
      would say. */
  ghost predicate ChecksHold(c: Catalog, s: Sys, user: UserId) {
    forall t <- s.txs :: PastOverlapCheck(s.txs[t]) && s.txs[t].a.user == user ==>
      OverlapHits(c, s.db, user, s.txs[t].a.schedule) == {}
  }

  /** Bookings leave the answer of an overlap query, and only a create that clashes joins it. */
  lemma HitsOnlyJoinByCreate(c: Catalog, s: State, op: Op, user: UserId, schedule: ScheduleId)
    requires Consistent(c, s.db, s.gateway.outcomes) && Enabled(c, s, op)
    requires op.CreateOp? ==> !Clash(c, op.a, user, schedule)
    ensures OverlapHits(c, Exec(c, s, op).db, user, schedule) <= OverlapHits(c, s.db, user, schedule)
  {
    var s' := Exec(c, s, op);
    OpExtends(c, s, op);
    forall b | b in OverlapHits(c, s'.db, user, schedule)
      ensures b in OverlapHits(c, s.db, user, schedule)
    {
      if b in s.db.bookings {
        OldHitsWereHits(c, s, s', user, schedule, b);
      } else {
        OnlyCreateAddsRows(c, s, op, b);
      }
    }
  }

  lemma OldHitsWereHits(c: Catalog, s: State, s': State, user: UserId, schedule: ScheduleId, b: BookingId)
    requires Extends(s, s') && b in s.db.bookings && b in OverlapHits(c, s'.db, user, schedule)
    ensures b in OverlapHits(c, s.db, user, schedule)
  {
    assert Moves(s.db.bookings[b], s'.db.bookings[b]);
  }

  function ArgsOf(row: Booking): CreateArgs {
    CreateArgs(row.user, row.schedule, row.seat, row.key)
  }

  lemma OnlyCreateAddsRows(c: Catalog, s: State, op: Op, b: BookingId)
    requires Consistent(c, s.db, s.gateway.outcomes) && Enabled(c, s, op)
    requires b in Exec(c, s, op).db.bookings && b !in s.db.bookings
    ensures op.CreateOp? && op.id == b && ArgsOf(Exec(c, s, op).db.bookings[b]) == op.a
    ensures Exec(c, s, op).db.bookings[b].status == Reserved
  {
    if op.CreateOp? {
      CreatedMeansFree(c, s.db, s.gateway.outcomes, op.a, op.hits);
    }
  }

  lemma ChecksStayValid(c: Catalog, s: Sys, act: Act, s': Sys, user: UserId)
    requires Safe(c, s) && Step(c, s, act, s') && NoRivalsOf(c, s, user) && ChecksHold(c, s, user)
    ensures ChecksHold(c, s', user)
  {
    forall t <- s'.txs | PastOverlapCheck(s'.txs[t]) && s'.txs[t].a.user == user
      ensures OverlapHits(c, s'.db, user, s'.txs[t].a.schedule) == {}
    {
      WasChecked(c, s, act, s', t, user);
      var op := OpOf(s, act);
      StepRefines(c, s, act, s');
      if op.Some? {
        HitsOnlyJoinByCreate(c, Visible(s), op.value, user, s'.txs[t].a.schedule);
      }
    }
  }

  /** A create that is past its check has an empty answer before the step, and the step
      commits no create that clashes with it. */
  lemma WasChecked(c: Catalog, s: Sys, act: Act, s': Sys, t: TxId, user: UserId)
    requires Safe(c, s) && Step(c, s, act, s') && NoRivalsOf(c, s, user) && ChecksHold(c, s, user)
    requires t in s'.txs && PastOverlapCheck(s'.txs[t]) && s'.txs[t].a.user == user
    ensures OverlapHits(c, s.db, user, s'.txs[t].a.schedule) == {}
    ensures OpOf(s, act).Some? && OpOf(s, act).value.CreateOp? ==>
            !Clash(c, OpOf(s, act).value.a, user, s'.txs[t].a.schedule)
  {
    CreateWasOpen(c, s, act, s', t);
    var op := OpOf(s, act);
    if op.Some? && op.value.CreateOp? {
      assert s.txs[act.t].Creating? && s.txs[act.t].a == op.value.a && s'.txs[act.t].Done?;
    }
  }

  lemma CreateWasOpen(c: Catalog, s: Sys, act: Act, s': Sys, t: TxId)
    requires c.Valid() && Step(c, s, act, s')
    requires t in s'.txs && PastOverlapCheck(s'.txs[t])
    ensures t in s.txs && s.txs[t].Creating? && s.txs[t].a == s'.txs[t].a
    ensures PastOverlapCheck(s.txs[t]) || OverlapHits(c, s.db, s'.txs[t].a.user, s'.txs[t].a.schedule) == {}
  {
    if act.Statement? && act.t == t {
      assert s.txs[t].Creating? && s'.txs[t] == NextCreate(c, s, s.txs[t], act.ch).1;
    }
  }

  lemma CommitSeesCurrent(c: Catalog, s: Sys, act: Act, user: UserId)
    requires Safe(c, s) && ChecksHold(c, s, user) && OpOf(s, act).Some?
    ensures SeesCurrent(c, Visible(s), OpOf(s, act).value, user)
  {
  }

  lemma StepKeepsJourneys(c: Catalog, s: Sys, act: Act, s': Sys, user: UserId)
    requires Safe(c, s) && Step(c, s, act, s') && ChecksHold(c, s, user) && DisjointFor(c, s.db, user)
    ensures DisjointFor(c, s'.db, user)
  {
    StepRefines(c, s, act, s');
    if OpOf(s, act).Some? {
      CommitSeesCurrent(c, s, act, user);
      OpKeepsJourneys(c, Visible(s), OpOf(s, act).value, user);
    }
  }

  lemma {:induction false} PathKeepsJourneys(c: Catalog, tr: seq<Sys>, acts: seq<Act>, n: nat, user: UserId)
    requires Path(c, tr, acts) && Safe(c, tr[0]) && n < |tr|
    requires ChecksHold(c, tr[0], user) && DisjointFor(c, tr[0].db, user)
    requires forall i | 0 <= i < n :: NoRivalsOf(c, tr[i], user)
    ensures ChecksHold(c, tr[n], user) && DisjointFor(c, tr[n].db, user)
  {
    if n > 0 {
      PathKeepsJourneys(c, tr, acts, n - 1, user);
      PathIsSafe(c, tr, acts, n - 1);
      ChecksStayValid(c, tr[n - 1], acts[n - 1], tr[n], user);
      StepKeepsJourneys(c, tr[n - 1], acts[n - 1], tr[n], user);
    }
  }

  /** Theorem: a user who never has two creates open at once for overlapping journeys never
      has overlapping active journeys, whatever other users do. */
  lemma JourneysStayDisjoint(c: Catalog, tr: seq<Sys>, acts: seq<Act>, n: nat, user: UserId)
    requires Run(c, tr, acts) && n < |tr|
    requires forall i | 0 <= i < n :: NoRivalsOf(c, tr[i], user)
    ensures DisjointFor(c, tr[n].db, user)
  {
    PathKeepsJourneys(c, tr, acts, n, user);
  }

  lemma EveryonesJourneysStayDisjoint(c: Catalog, tr: seq<Sys>, acts: seq<Act>, n: nat)
    requires Run(c, tr, acts) && n < |tr|
    requires forall i, user: UserId | 0 <= i < n :: NoRivalsOf(c, tr[i], user)
    ensures JourneysDisjoint(c, tr[n].db)
  {
    forall user: UserId
      ensures DisjointFor(c, tr[n].db, user)
    {
      JourneysStayDisjoint(c, tr, acts, n, user);
    }
  }

  /** The same in the columns of the tables: if in no state two open creates of the user ask
      for schedules of which one departs before the other arrives and arrives after it
      departs, then no two reserved or confirmed rows of the user are on such schedules, and
      their journeys share no instant. */
  lemma JourneysNeverMeet(c: Catalog, tr: seq<Sys>, acts: seq<Act>, n: nat, user: UserId, b1: BookingId,
        b2: BookingId, now: Time)
    requires Run(c, tr, acts) && n < |tr|
    requires forall i, t, u | 0 <= i < n && t in tr[i].txs && u in tr[i].txs && t != u ::
               !(&& tr[i].txs[t].Creating? && tr[i].txs[t].a.user == user && tr[i].txs[t].a.schedule in c.schedules
                 && tr[i].txs[u].Creating? && tr[i].txs[u].a.user == user && tr[i].txs[u].a.schedule in c.schedules
                 && c.schedules[tr[i].txs[t].a.schedule].departure < c.schedules[tr[i].txs[u].a.schedule].arrival
                 && c.schedules[tr[i].txs[t].a.schedule].arrival > c.schedules[tr[i].txs[u].a.schedule].departure)
    requires b1 in tr[n].db.bookings && b2 in tr[n].db.bookings && b1 != b2
    requires tr[n].db.bookings[b1].user == user && tr[n].db.bookings[b1].status in {Reserved, Confirmed}
    requires tr[n].db.bookings[b2].user == user && tr[n].db.bookings[b2].status in {Reserved, Confirmed}
    ensures tr[n].db.bookings[b1].schedule in c.schedules && tr[n].db.bookings[b2].schedule in c.schedules
    ensures var x, y := c.schedules[tr[n].db.bookings[b1].schedule], c.schedules[tr[n].db.bookings[b2].schedule];
      && !(x.departure < y.arrival && x.arrival > y.departure)
      && !(x.departure <= now < x.arrival && y.departure <= now < y.arrival)
  {
    forall i | 0 <= i < n
      ensures NoRivalsOf(c, tr[i], user)
    {
      assert forall t, u | t in tr[i].txs && u in tr[i].txs && t != u && CreatesFor(tr[i].txs[t], user)
                           && CreatesFor(tr[i].txs[u], user) ::
                              !Clash(c, tr[i].txs[t].a, user, tr[i].txs[u].a.schedule);
    }
    JourneysStayDisjoint(c, tr, acts, n, user);
    BothRowsKnown(c, tr, acts, n, b1, b2);
    assert InUse(tr[n].db.bookings[b2], user);
    assert !OverlapHit(c, tr[n].db.bookings[b1], user, tr[n].db.bookings[b2].schedule);
  }

  lemma BothRowsKnown(c: Catalog, tr: seq<Sys>, acts: seq<Act>, n: nat, b1: BookingId, b2: BookingId)
    requires Run(c, tr, acts) && n < |tr| && b1 in tr[n].db.bookings && b2 in tr[n].db.bookings
    ensures tr[n].db.bookings[b1].schedule in c.schedules && tr[n].db.bookings[b2].schedule in c.schedules
  {
    RunIsSafe(c, tr, acts, n);
    assert RowOk(c, tr[n].db.bookings[b1]) && RowOk(c, tr[n].db.bookings[b2]);
  }

  // ---------- the same in the serial run ----------

  ghost predicate AllCurrent(c: Catalog, states: seq<State>, ops: seq<Op>, user: UserId) {
    |states| == |ops| + 1 && forall i | 0 <= i < |ops| :: SeesCurrent(c, states[i], ops[i], user)
  }

  lemma OneMoreCurrent(c: Catalog, states: seq<State>, ops: seq<Op>, op: Op, s': State, user: UserId)
    requires AllCurrent(c, states, ops, user) && SeesCurrent(c, states[|ops|], op, user)
    ensures AllCurrent(c, states + [s'], ops + [op], user)
  {
  }

  /** The create that commits at this step, if one does, sees its query current. */
  lemma StepSeesCurrent(c: Catalog, tr: seq<Sys>, acts: seq<Act>, n: nat, user: UserId)
    requires Run(c, tr, acts) && n < |acts| && OpOf(tr[n], acts[n]).Some?
    requires forall i | 0 <= i < n :: NoRivalsOf(c, tr[i], user)
    ensures SeesCurrent(c, Visible(tr[n]), OpOf(tr[n], acts[n]).value, user)
  {
    RunIsSafe(c, tr, acts, n);
    PathKeepsJourneys(c, tr, acts, n, user);
    CommitSeesCurrent(c, tr[n], acts[n], user);
  }

  lemma CurrentGrows(c: Catalog, tr: seq<Sys>, acts: seq<Act>, n: nat, user: UserId)
    requires Run(c, tr, acts) && 0 < n <= |acts|
    requires forall i | 0 <= i < n :: NoRivalsOf(c, tr[i], user)
    requires AllCurrent(c, Visibles(tr, acts, n - 1), Ops(tr, acts, n - 1), user)
    ensures AllCurrent(c, Visibles(tr, acts, n), Ops(tr, acts, n), user)
  {
    var op := OpOf(tr[n - 1], acts[n - 1]);
    if op.Some? {
      LastVisible(c, tr, acts, n - 1);
      StepSeesCurrent(c, tr, acts, n - 1, user);
      OneMoreCurrent(c, Visibles(tr, acts, n - 1), Ops(tr, acts, n - 1), op.value, Visible(tr[n]), user);
    }
  }

  lemma LastVisible(c: Catalog, tr: seq<Sys>, acts: seq<Act>, n: nat)
    requires Run(c, tr, acts) && n <= |acts|
    ensures var states, ops := Visibles(tr, acts, n), Ops(tr, acts, n);
      |states| == |ops| + 1 && states[|ops|] == Visible(tr[n])
  {
    RunIsSerial(c, tr, acts, n);
  }

  /** In the serial run of commits every create of such a user also passes the overlap check
      at its commit. */
  lemma {:induction false} RunSeesCurrent(c: Catalog, tr: seq<Sys>, acts: seq<Act>, n: nat, user: UserId)
    requires Run(c, tr, acts) && n <= |acts|
    requires forall i | 0 <= i < n :: NoRivalsOf(c, tr[i], user)
    ensures AllCurrent(c, Visibles(tr, acts, n), Ops(tr, acts, n), user)
  {
    if n > 0 {
      RunSeesCurrent(c, tr, acts, n - 1, user);
      CurrentGrows(c, tr, acts, n, user);
    }
  }

  // ---------- any run at all ----------

  /** The bookings that can break the rule when t commits: active bookings of the same user
      on an overlapping schedule that were committed after the state that t checked. */
  ghost function Intruders(c: Catalog, seen: Database, now: Database, a: CreateArgs): set<BookingId> {
    set b | b in OverlapHits(c, now, a.user, a.schedule) && b !in seen.bookings
  }

  /** Transaction t passes its overlap check at step i and commits at step j. */
  ghost predicate ChecksThenCommits(tr: seq<Sys>, acts: seq<Act>, i: nat, j: nat, t: TxId, a: CreateArgs) {
    && i < j && CommitsCreate(tr, acts, j, a) && acts[j].t == t
    && t in tr[i].txs && tr[i].txs[t].Creating? && tr[i].txs[t].cpc == OverlapQuery && tr[i].txs[t].a == a
    && acts[i].Statement? && acts[i].t == t && t in tr[i + 1].txs && !tr[i + 1].txs[t].Done?
  }

  /** In any run at all, a commit keeps the journeys of its user disjoint exactly when no such
      booking came in between, whatever the journeys of others are like. */
  lemma CommitKeepsJourneysExactly(c: Catalog, tr: seq<Sys>, acts: seq<Act>, i: nat, j: nat, t: TxId, a: CreateArgs)
    requires Run(c, tr, acts) && ChecksThenCommits(tr, acts, i, j, t, a) && DisjointFor(c, tr[j].db, a.user)
    ensures DisjointFor(c, tr[j + 1].db, a.user) <==> Intruders(c, tr[i].db, tr[j].db, a) == {}
  {
    RunIsSafe(c, tr, acts, j);
    RunOnlyExtends(c, tr, acts, i, j);
    CommitKeepsIfUnseen(c, tr[j], t, acts[j].ch);
    assert Step(c, tr[i], acts[i], tr[i + 1]);
    assert OverlapHits(c, tr[i].db, a.user, a.schedule) == {};
    LateHitsAreIntruders(c, Visible(tr[i]), Visible(tr[j]), a);
  }

  lemma CommitKeepsIfUnseen(c: Catalog, s: Sys, t: TxId, ch: Choice)
    requires Safe(c, s) && CanRun(s, t, ch) && s.txs[t].Creating? && s.txs[t].cpc == CommitCreate
    requires DisjointFor(c, s.db, s.txs[t].a.user)
    ensures var a := s.txs[t].a;
      DisjointFor(c, Next(c, s, t, ch).db, a.user) <==> OverlapHits(c, s.db, a.user, a.schedule) == {}
  {
    var tx := s.txs[t];
    assert Knows(c, s.db, s.gateway, s.clock, tx);
    CreateKeepsJourneysExactly(c, s.db, tx.a, tx.at, tx.id);
  }

  lemma LateHitsAreIntruders(c: Catalog, s: State, s': State, a: CreateArgs)
    requires Extends(s, s') && OverlapHits(c, s.db, a.user, a.schedule) == {}
    ensures Intruders(c, s.db, s'.db, a) == OverlapHits(c, s'.db, a.user, a.schedule)
  {
    forall b | b in OverlapHits(c, s'.db, a.user, a.schedule)
      ensures b in Intruders(c, s.db, s'.db, a)
    {
      if b in s.db.bookings {
        OldHitsWereHits(c, s, s', a.user, a.schedule, b);
      }
    }
    Sets.Contained(OverlapHits(c, s'.db, a.user, a.schedule), Intruders(c, s.db, s'.db, a));
  }
}
