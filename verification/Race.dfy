/** The race of the demo: two creates for one seat that nobody has booked yet, among all
    the other requests and cleanup passes of the service. */
module Race {
  import opened Domain
  import opened Serial
  import opened SerialRuns
  import opened Consistency
  import opened Machine
  import opened MachineSafety
  import opened Refinement
  import opened Journeys
  import opened OpenCreates

  function StatusCode(out: Outcome): int {
    match out
    case Created(_) => 201
    case Found(_) => 201
    case SeatTaken => 409
    case JourneyOverlap => 409
    case NotFound => 404
    case Forbidden => 403
    case BadState => 400
    case HoldExpired => 400
    case TooLate => 400
    case Settled(_) => 200
    case Swept => 200
    case ServerError => 500
    case Aborted => 500
  }

  datatype Winner = NoWinner | A | B

  /** The label goes to the only one of the two that got 201. */
  predicate Wins(winner: Winner, codeA: int, codeB: int) {
    && (winner == A <==> codeA == 201 && codeB != 201)
    && (winner == B <==> codeB == 201 && codeA != 201)
  }

  method PickWinner(codeA: int, codeB: int) returns (winner: Winner)
    ensures Wins(winner, codeA, codeB)
  {
    winner := NoWinner;
    if codeA == 201 && codeB != 201 {
      winner := A;
    } else if codeB == 201 && codeA != 201 {
      winner := B;
    }
  }

  predicate Rivals(a: CreateArgs, b: CreateArgs) {
    a.schedule == b.schedule && a.seat == b.seat && a.key != b.key
  }

  /** A create with another seat and key, and no overlapping journey of the same user. */
  predicate Harmless(c: Catalog, other: CreateArgs, a: CreateArgs) {
    && other.key != a.key && (other.schedule != a.schedule || other.seat != a.seat)
    && !Clash(c, other, a.user, a.schedule)
  }

  /** Create t runs for a and is not aborted. */
  predicate Fair(act: Act, t: TxId, a: CreateArgs) {
    && !(act.Abort? && act.t == t)
    && (act.Begin? && act.t == t ==> act.tx.Creating? && act.tx.a == a)
  }

  /** What may happen during the race: both creates run without an abort, and every other
      open create is harmless. Everything else is free. */
  ghost predicate FairRace(c: Catalog, tr: seq<Sys>, acts: seq<Act>, t: TxId, a: CreateArgs, u: TxId, b: CreateArgs) {
    && Path(c, tr, acts) && Safe(c, tr[0]) && t != u && Rivals(a, b)
    && (forall i | 0 <= i < |acts| :: Fair(acts[i], t, a) && Fair(acts[i], u, b))
    && forall i | 0 <= i < |acts| :: OthersHarmless(c, tr[i], t, a, u, b)
  }

  ghost predicate OthersHarmless(c: Catalog, s: Sys, t: TxId, a: CreateArgs, u: TxId, b: CreateArgs) {
    forall x <- s.txs :: x != t && x != u && s.txs[x].Creating? ==>
        Harmless(c, s.txs[x].a, a) && Harmless(c, s.txs[x].a, b)
  }

  // ---------- steps of other transactions ----------

  /** What a create for a would read is left alone, except that bookings move on. */
  ghost predicate Undisturbed(c: Catalog, db: Database, db': Database, a: CreateArgs) {
    && (KeyHolder(db, a.key) == None ==> KeyHolder(db', a.key) == None)
    && SeatHolder(db', a.schedule, a.seat) == SeatHolder(db, a.schedule, a.seat)
    && OverlapHits(c, db', a.user, a.schedule) <= OverlapHits(c, db, a.user, a.schedule)
    && forall b <- db.bookings :: b in db'.bookings && Moves(db.bookings[b], db'.bookings[b])
  }

  lemma OpLeavesAlone(c: Catalog, s: State, op: Op, a: CreateArgs)
    requires Consistent(c, s.db, s.gateway.outcomes) && Enabled(c, s, op)
    requires op.CreateOp? ==> Harmless(c, op.a, a)
    ensures Undisturbed(c, s.db, Exec(c, s, op).db, a)
  {
    var s' := Exec(c, s, op);
    OpExtends(c, s, op);
    OpKeeps(c, s, op);
    HitsOnlyJoinByCreate(c, s, op, a.user, a.schedule);
    forall b <- s'.db.bookings
      ensures HoldsKeyRow(s'.db, a.key, b) ==> HoldsKeyRow(s.db, a.key, b)
      ensures HoldsSeatRow(s'.db, a.schedule, a.seat, b) ==> HoldsSeatRow(s.db, a.schedule, a.seat, b)
    {
      if b in s.db.bookings {
        assert Moves(s.db.bookings[b], s'.db.bookings[b]);
      } else {
        OnlyCreateAddsRows(c, s, op, b);
      }
    }
    SeatHolderStays(c, s, s', a);
  }

  lemma SeatHolderStays(c: Catalog, s: State, s': State, a: CreateArgs)
    requires Consistent(c, s'.db, s'.gateway.outcomes) && Extends(s, s')
    requires forall b <- s'.db.bookings :: HoldsSeatRow(s'.db, a.schedule, a.seat, b) ==>
            HoldsSeatRow(s.db, a.schedule, a.seat, b)
    ensures SeatHolder(s'.db, a.schedule, a.seat) == SeatHolder(s.db, a.schedule, a.seat)
  {
    HoldersAreExact(c, s'.db, s'.gateway.outcomes);
    var row := SeatHolder(s.db, a.schedule, a.seat);
    if row.Some? {
      assert HoldsSeatRow(s.db, a.schedule, a.seat, row.value);
      assert Moves(s.db.bookings[row.value], s'.db.bookings[row.value]);
      assert HoldsSeatRow(s'.db, a.schedule, a.seat, row.value);
    }
  }

  /** A step of any other transaction. */
  lemma OtherStep(c: Catalog, s: Sys, act: Act, s': Sys, t: TxId, a: CreateArgs, u: TxId, b: CreateArgs)
    requires Safe(c, s) && Step(c, s, act, s') && OthersHarmless(c, s, t, a, u, b)
    requires act.Statement? ==> act.t != t && act.t != u
    ensures Undisturbed(c, s.db, s'.db, a) && Undisturbed(c, s.db, s'.db, b)
  {
    StepRefines(c, s, act, s');
    var op := OpOf(s, act);
    if op.Some? {
      OpLeavesAlone(c, Visible(s), op.value, a);
      OpLeavesAlone(c, Visible(s), op.value, b);
    } else {
      assert s'.db == s.db;
    }
  }

  // ---------- the two phases of the race ----------

  /** At this step the create l reads the winner's row while that is active: at its seat
      lock, or at its overlap query when both are the same user. */
  predicate Meets(c: Catalog, s: Sys, act: Act, l: TxId, user: UserId, id: BookingId) {
    && act.Statement? && act.t == l && l in s.txs && s.txs[l].Creating?
    && id in s.db.bookings && s.db.bookings[id].status.Active()
    && (s.txs[l].cpc == SeatLock || (s.txs[l].cpc == OverlapQuery && SameJourney(c, s.txs[l].a, user)))
  }

  predicate SameJourney(c: Catalog, a: CreateArgs, user: UserId) {
    Clash(c, a, user, a.schedule)
  }

  /** Create w has committed; create l is still to begin, or has missed w's row so far, or
      has lost with a code that says whether it met it. */
  ghost predicate Won(c: Catalog, s: Sys, w: TxId, wa: CreateArgs, l: TxId, la: CreateArgs, met: bool) {
    && w in s.txs && w != l && s.txs[w].Done? && s.txs[w].out.Created?
    && var id := s.txs[w].out.id;
    && HasSeat(c, s.db, id, wa, la) && (l !in s.txs ==> !met)
    && (l in s.txs ==> LoserAt(s.db, s.txs[l], la, id, met))
  }

  /** Row id is the winner's, and all that the loser's queries can find. */
  ghost predicate HasSeat(c: Catalog, db: Database, id: BookingId, wa: CreateArgs, la: CreateArgs) {
    && id in db.bookings && db.bookings[id].user == wa.user && db.bookings[id].schedule == wa.schedule
    && la.schedule in c.schedules && la.seat in c.seats
    && SeatHolder(db, la.schedule, la.seat) == Some(id)
    && KeyHolder(db, la.key) == None && OverlapHits(c, db, la.user, la.schedule) <= {id}
  }

  predicate LoserAt(db: Database, tx: Tx, la: CreateArgs, id: BookingId, met: bool)
    requires id in db.bookings
  {
    match tx
    case Done(out) => StatusCode(out) == if met then 409 else 500
    case Creating(a, _, found, _, _) =>
      a == la && !met && (found == None || (found == Some(id) && !db.bookings[id].status.Active()))
    case _ => false
  }

  /** The code that l is bound for as long as the winner's row stays active. */
  ghost predicate WillMeet(c: Catalog, s: Sys, l: TxId, user: UserId) {
    l in s.txs ==>
      match s.txs[l]
      case Done(out) => StatusCode(out) == 409
      case Creating(a, pc, _, _, _) => pc in {KeyLookup, SeatLock} || (pc == OverlapQuery && SameJourney(c, a, user))
      case _ => false
  }

  lemma OtherStepInRace(c: Catalog, s: Sys, act: Act, s': Sys, t: TxId, a: CreateArgs, u: TxId, b: CreateArgs)
    requires Safe(c, s) && Step(c, s, act, s') && OthersHarmless(c, s, t, a, u, b)
    requires Fair(act, t, a) && Fair(act, u, b)
    requires act.Statement? ==> act.t != t && act.t != u
    requires Racing(c, s, t, a) && Racing(c, s, u, b)
    ensures Racing(c, s', t, a) && Racing(c, s', u, b)
  {
    OtherStep(c, s, act, s', t, a, u, b);
  }

  lemma OtherStepAfterRace(c: Catalog, s: Sys, act: Act, s': Sys, w: TxId, wa: CreateArgs, l: TxId, la: CreateArgs,
        met: bool)
    requires Safe(c, s) && Step(c, s, act, s') && Won(c, s, w, wa, l, la, met)
    requires Fair(act, w, wa) && Fair(act, l, la) && Undisturbed(c, s.db, s'.db, la)
    requires act.Statement? ==> act.t != l
    ensures Won(c, s', w, wa, l, la, met)
    ensures WillMeet(c, s', l, wa.user) == WillMeet(c, s, l, wa.user)
  {
    var id := s.txs[w].out.id;
    assert Moves(s.db.bookings[id], s'.db.bookings[id]);
    assert HasSeat(c, s'.db, id, wa, la);
    BystanderTx(c, s, act, s', w);
    if l in s.txs {
      BystanderTx(c, s, act, s', l);
    }
  }

  lemma BystanderTx(c: Catalog, s: Sys, act: Act, s': Sys, x: TxId)
    requires c.Valid() && Step(c, s, act, s') && x in s.txs
    requires !(act.Abort? && act.t == x) && !(act.Statement? && act.t == x)
    ensures x in s'.txs && s'.txs[x] == s.txs[x]
  {
  }

  /** While neither has committed, a statement of t either stays in the race or wins it. */
  lemma RaceStatement(c: Catalog, s: Sys, t: TxId, a: CreateArgs, u: TxId, b: CreateArgs, ch: Choice)
    requires Safe(c, s) && t != u && Rivals(a, b)
    requires Ready(c, s, t, a) && Racing(c, s, u, b) && CanRun(s, t, ch)
    ensures var s' := Next(c, s, t, ch);
      if s.txs[t].cpc == CommitCreate then
        Won(c, s', t, a, u, b, false) && WillMeet(c, s', u, a.user) == WillMeet(c, s, u, a.user)
      else Racing(c, s', t, a) && Racing(c, s', u, b)
  {
    var tx := s.txs[t];
    assert Knows(c, s.db, s.gateway, s.clock, tx);
    if tx.cpc == CommitCreate {
      WinnerTakesSeat(c, s, t, a, u, b, ch);
    }
  }

  lemma WinnerTakesSeat(c: Catalog, s: Sys, t: TxId, a: CreateArgs, u: TxId, b: CreateArgs, ch: Choice)
    requires Safe(c, s) && t != u && Rivals(a, b)
    requires Ready(c, s, t, a) && Racing(c, s, u, b) && CanRun(s, t, ch) && s.txs[t].cpc == CommitCreate
    ensures Won(c, Next(c, s, t, ch), t, a, u, b, false)
  {
    var s' := Next(c, s, t, ch);
    var tx := s.txs[t];
    assert Knows(c, s.db, s.gateway, s.clock, tx);
    StatementIsSafe(c, s, t, ch);
    HoldersAreExact(c, s'.db, s'.gateway.outcomes);
    assert s'.db == CreateWrite(c, s.db, a, None, tx.at, tx.id);
    assert HoldsSeatRow(s'.db, b.schedule, b.seat, tx.id);
    assert forall x <- s'.db.bookings :: HoldsKeyRow(s'.db, b.key, x) ==> HoldsKeyRow(s.db, b.key, x);
    CreateAddsOneHit(c, s.db, a, tx.at, tx.id, b);
  }

  lemma CreateAddsOneHit(c: Catalog, db: Database, a: CreateArgs, at: Time, id: BookingId, b: CreateArgs)
    requires c.Valid() && a.seat in c.seats
    ensures OverlapHits(c, CreateWrite(c, db, a, None, at, id), b.user, b.schedule)
            <= OverlapHits(c, db, b.user, b.schedule) + {id}
  {
  }

  /** After the rival's commit the other create can only lose, with 409 exactly when it
      meets the rival's row. */
  lemma LostStatement(c: Catalog, s: Sys, w: TxId, wa: CreateArgs, l: TxId, la: CreateArgs, met: bool, ch: Choice)
    requires Safe(c, s) && Rivals(wa, la) && Won(c, s, w, wa, l, la, met) && CanRun(s, l, ch)
    ensures Won(c, Next(c, s, l, ch), w, wa, l, la, met || Meets(c, s, Statement(l, ch), l, wa.user, s.txs[w].out.id))
    ensures s.db.bookings[s.txs[w].out.id].status.Active() ==>
            WillMeet(c, Next(c, s, l, ch), l, wa.user) == WillMeet(c, s, l, wa.user)
  {
    var tx := s.txs[l];
    var id := s.txs[w].out.id;
    var hits := OverlapHits(c, s.db, la.user, la.schedule);
    assert Knows(c, s.db, s.gateway, s.clock, tx);
    assert tx.cpc != CommitCreate;
    if tx.cpc == OverlapQuery {
      assert hits == if id in hits then {id} else {};
      assert id in hits <==> OverlapHit(c, s.db.bookings[id], la.user, la.schedule);
    } else if tx.cpc == FlushDelete && tx.found.Some? {
      EveryBookingHasChildren(c, s.db, s.gateway.outcomes, id);
    }
  }

  lemma LostStep(c: Catalog, s: Sys, act: Act, s': Sys, w: TxId, wa: CreateArgs, l: TxId, la: CreateArgs, met: bool)
    requires Safe(c, s) && Step(c, s, act, s') && Rivals(wa, la) && Won(c, s, w, wa, l, la, met)
    requires OthersHarmless(c, s, w, wa, l, la) && Fair(act, w, wa) && Fair(act, l, la)
    ensures Won(c, s', w, wa, l, la, met || Meets(c, s, act, l, wa.user, s.txs[w].out.id))
    ensures s'.txs[w] == s.txs[w]
    ensures s.db.bookings[s.txs[w].out.id].status.Active() ==> WillMeet(c, s', l, wa.user) == WillMeet(c, s, l, wa.user)
  {
    if act.Statement? && act.t == l {
      LostStatement(c, s, w, wa, l, la, met, act.ch);
    } else {
      OtherStep(c, s, act, s', w, wa, l, la);
      OtherStepAfterRace(c, s, act, s', w, wa, l, la, met);
    }
  }

  ghost predicate Contest(c: Catalog, s: Sys, t: TxId, a: CreateArgs, u: TxId, b: CreateArgs) {
    || (Racing(c, s, t, a) && Racing(c, s, u, b))
    || Won(c, s, t, a, u, b, true) || Won(c, s, t, a, u, b, false)
    || Won(c, s, u, b, t, a, true) || Won(c, s, u, b, t, a, false)
  }

  lemma {:induction false} ContestGoesOn(c: Catalog, tr: seq<Sys>, acts: seq<Act>, t: TxId, a: CreateArgs, u: TxId,
        b: CreateArgs, n: nat)
    requires FairRace(c, tr, acts, t, a, u, b) && n < |tr|
    requires Racing(c, tr[0], t, a) && Racing(c, tr[0], u, b)
    ensures Contest(c, tr[n], t, a, u, b)
  {
    if n > 0 {
      ContestGoesOn(c, tr, acts, t, a, u, b, n - 1);
      PathIsSafe(c, tr, acts, n - 1);
      ContestStep(c, tr[n - 1], acts[n - 1], tr[n], t, a, u, b);
    }
  }

  lemma ContestStep(c: Catalog, s: Sys, act: Act, s': Sys, t: TxId, a: CreateArgs, u: TxId, b: CreateArgs)
    requires Safe(c, s) && Step(c, s, act, s') && Contest(c, s, t, a, u, b) && t != u && Rivals(a, b)
    requires OthersHarmless(c, s, t, a, u, b) && Fair(act, t, a) && Fair(act, u, b)
    ensures Contest(c, s', t, a, u, b)
  {
    if Racing(c, s, t, a) && Racing(c, s, u, b) {
      if act.Statement? && act.t == t {
        RaceStatement(c, s, t, a, u, b, act.ch);
      } else if act.Statement? && act.t == u {
        RaceStatement(c, s, u, b, t, a, act.ch);
      } else {
        OtherStepInRace(c, s, act, s', t, a, u, b);
      }
    } else if Won(c, s, t, a, u, b, true) || Won(c, s, t, a, u, b, false) {
      LostStep(c, s, act, s', t, a, u, b, Won(c, s, t, a, u, b, true));
    } else {
      LostStep(c, s, act, s', u, b, t, a, Won(c, s, u, b, t, a, true));
    }
  }

  /** Theorem: among any pays, refunds, cleanup passes and creates for other seats, when
      both racers have finished exactly one got 201, the winner's label is its label and the
      seat's row is the booking it reported, for its user; the other got 409 or 500. */
  lemma RaceHasOneWinner(c: Catalog, tr: seq<Sys>, acts: seq<Act>, t: TxId, a: CreateArgs, u: TxId, b: CreateArgs)
    requires FairRace(c, tr, acts, t, a, u, b) && Racing(c, tr[0], t, a) && Racing(c, tr[0], u, b)
    requires var last := tr[|tr| - 1]; t in last.txs && u in last.txs && last.txs[t].Done? && last.txs[u].Done?
    ensures var last := tr[|tr| - 1];
      var codeT, codeU := StatusCode(last.txs[t].out), StatusCode(last.txs[u].out);
      && (codeT == 201) != (codeU == 201)
      && (codeT == 201 || codeT in {409, 500}) && (codeU == 201 || codeU in {409, 500})
      && (codeT == 201 ==> HasItsSeat(last, t, a)) && (codeU == 201 ==> HasItsSeat(last, u, b))
      && forall w | Wins(w, codeT, codeU) :: w == if codeT == 201 then A else B
  {
    ContestGoesOn(c, tr, acts, t, a, u, b, |acts|);
  }

  /** The booking that t reported is the row of its seat, and its user's. */
  ghost predicate HasItsSeat(s: Sys, t: TxId, a: CreateArgs)
    requires t in s.txs && s.txs[t].Done?
  {
    && s.txs[t].out.Created? && SeatHolder(s.db, a.schedule, a.seat) == Some(s.txs[t].out.id)
    && s.txs[t].out.id in s.db.bookings && s.db.bookings[s.txs[t].out.id].user == a.user
  }

  // ---------- the code of the loser ----------

  /** Create u meets the row at some step from `from` up to n. */
  ghost predicate MeetsIn(c: Catalog, tr: seq<Sys>, acts: seq<Act>, u: TxId, user: UserId, id: BookingId, from: nat,
        n: nat)
    requires n <= |acts| <= |tr|
  {
    exists m | from <= m < n :: Meets(c, tr[m], acts[m], u, user, id)
  }

  lemma MeetsInGrows(c: Catalog, tr: seq<Sys>, acts: seq<Act>, u: TxId, user: UserId, id: BookingId, from: nat, n: nat)
    requires from <= n < |acts| <= |tr|
    ensures MeetsIn(c, tr, acts, u, user, id, from, n + 1) ==
            (MeetsIn(c, tr, acts, u, user, id, from, n) || Meets(c, tr[n], acts[n], u, user, id))
  {
  }

  /** The race is won by w with row id; sees is the code that l was bound for. */
  ghost predicate WonWith(c: Catalog, s: Sys, w: TxId, wa: CreateArgs, l: TxId, la: CreateArgs, id: BookingId,
        met: bool, sees: bool) {
    && Won(c, s, w, wa, l, la, met) && s.txs[w] == Done(Created(id))
    && (s.db.bookings[id].status.Active() ==> WillMeet(c, s, l, wa.user) == sees)
  }

  lemma LostInRace(c: Catalog, tr: seq<Sys>, acts: seq<Act>, t: TxId, a: CreateArgs, u: TxId, b: CreateArgs, n: nat,
        id: BookingId, met: bool, sees: bool)
    requires FairRace(c, tr, acts, t, a, u, b) && n < |acts|
    requires WonWith(c, tr[n], t, a, u, b, id, met, sees)
    ensures WonWith(c, tr[n + 1], t, a, u, b, id, met || Meets(c, tr[n], acts[n], u, a.user, id), sees)
  {
    PathIsSafe(c, tr, acts, n);
    LostStep(c, tr[n], acts[n], tr[n + 1], t, a, u, b, met);
    StepExtends(c, tr[n], acts[n], tr[n + 1]);
    assert Moves(tr[n].db.bookings[id], tr[n + 1].db.bookings[id]);
  }

  /** From step k on every step takes a race that is won to one that is won. */
  ghost predicate StaysWon(c: Catalog, tr: seq<Sys>, acts: seq<Act>, t: TxId, a: CreateArgs, u: TxId, b: CreateArgs,
        id: BookingId, sees: bool, k: nat)
    requires k < |acts| && |tr| == |acts| + 1
  {
    forall met: bool | WonWith(c, tr[k], t, a, u, b, id, met, sees) ::
      WonWith(c, tr[k + 1], t, a, u, b, id, met || Meets(c, tr[k], acts[k], u, a.user, id), sees)
  }

  lemma {:induction false} WonOnward(c: Catalog, tr: seq<Sys>, acts: seq<Act>, t: TxId, a: CreateArgs, u: TxId,
        b: CreateArgs, from: nat, n: nat, id: BookingId, sees: bool)
    requires from <= n <= |acts| && |tr| == |acts| + 1
    requires forall k: nat | from <= k < n :: StaysWon(c, tr, acts, t, a, u, b, id, sees, k)
    requires WonWith(c, tr[from], t, a, u, b, id, false, sees)
    ensures WonWith(c, tr[n], t, a, u, b, id, MeetsIn(c, tr, acts, u, a.user, id, from, n), sees)
  {
    if from < n {
      WonOnward(c, tr, acts, t, a, u, b, from, n - 1, id, sees);
      assert StaysWon(c, tr, acts, t, a, u, b, id, sees, n - 1);
      MeetsInGrows(c, tr, acts, u, a.user, id, from, n - 1);
    }
  }

  lemma LostForGood(c: Catalog, tr: seq<Sys>, acts: seq<Act>, t: TxId, a: CreateArgs, u: TxId, b: CreateArgs,
        from: nat, n: nat, id: BookingId, sees: bool)
    requires FairRace(c, tr, acts, t, a, u, b) && from <= n <= |acts|
    requires WonWith(c, tr[from], t, a, u, b, id, false, sees)
    ensures WonWith(c, tr[n], t, a, u, b, id, MeetsIn(c, tr, acts, u, a.user, id, from, n), sees)
  {
    forall k: nat | from <= k < n
      ensures StaysWon(c, tr, acts, t, a, u, b, id, sees, k)
    {
      forall met: bool | WonWith(c, tr[k], t, a, u, b, id, met, sees)
        ensures WonWith(c, tr[k + 1], t, a, u, b, id, met || Meets(c, tr[k], acts[k], u, a.user, id), sees)
      {
        LostInRace(c, tr, acts, t, a, u, b, k, id, met, sees);
      }
    }
    WonOnward(c, tr, acts, t, a, u, b, from, n, id, sees);
  }

  lemma WonAtCommit(c: Catalog, tr: seq<Sys>, acts: seq<Act>, t: TxId, a: CreateArgs, u: TxId, b: CreateArgs, j: nat)
    requires FairRace(c, tr, acts, t, a, u, b) && Racing(c, tr[0], t, a) && Racing(c, tr[0], u, b)
            && CommitsCreate(tr, acts, j, a) && acts[j].t == t
    ensures WonWith(c, tr[j + 1], t, a, u, b, tr[j].txs[t].id, false, WillMeet(c, tr[j], u, a.user))
  {
    var s := tr[j];
    ContestGoesOn(c, tr, acts, t, a, u, b, j);
    PathIsSafe(c, tr, acts, j);
    assert Step(c, s, acts[j], tr[j + 1]);
    assert Knows(c, s.db, s.gateway, s.clock, s.txs[t]);
    RaceStatement(c, s, t, a, u, b, acts[j].ch);
  }

  /** Theorem: the loser gets the documented 409 exactly when it met the winner's row: its
      seat lock, or as the same user its overlap query, came after the winner's commit and
      found the row reserved or confirmed. Otherwise it gets 500. */
  lemma LoserCode(c: Catalog, tr: seq<Sys>, acts: seq<Act>, t: TxId, a: CreateArgs, u: TxId, b: CreateArgs, j: nat,
        n: nat)
    requires FairRace(c, tr, acts, t, a, u, b) && Racing(c, tr[0], t, a) && Racing(c, tr[0], u, b)
    requires CommitsCreate(tr, acts, j, a) && acts[j].t == t && j < n <= |acts| && u in tr[n].txs && tr[n].txs[u].Done?
    ensures StatusCode(tr[n].txs[u].out) ==
            if MeetsIn(c, tr, acts, u, a.user, tr[j].txs[t].id, j + 1, n) then 409 else 500
  {
    WonAtCommit(c, tr, acts, t, a, u, b, j);
    LostForGood(c, tr, acts, t, a, u, b, j + 1, n, tr[j].txs[t].id, WillMeet(c, tr[j], u, a.user));
  }

  /** As long as the winner's row is still reserved or confirmed when the loser ends, where
      the loser stood at the winner's commit decides: it gets 409 exactly when its seat lock,
      or as the same user its overlap query, was still to come. */
  lemma LoserCodeAtCommit(c: Catalog, tr: seq<Sys>, acts: seq<Act>, t: TxId, a: CreateArgs, u: TxId, b: CreateArgs,
        j: nat, n: nat)
    requires FairRace(c, tr, acts, t, a, u, b) && Racing(c, tr[0], t, a) && Racing(c, tr[0], u, b)
    requires CommitsCreate(tr, acts, j, a) && acts[j].t == t && j < n <= |acts| && u in tr[n].txs && tr[n].txs[u].Done?
    requires var id := tr[j].txs[t].id; id in tr[n].db.bookings && tr[n].db.bookings[id].status.Active()
    ensures StatusCode(tr[n].txs[u].out) == if WillMeet(c, tr[j], u, a.user) then 409 else 500
  {
    WonAtCommit(c, tr, acts, t, a, u, b, j);
    LostForGood(c, tr, acts, t, a, u, b, j + 1, n, tr[j].txs[t].id, WillMeet(c, tr[j], u, a.user));
  }
}
