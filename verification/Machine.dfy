/** The booking transactions as interleaved statements. A transaction has a program
    counter, the row locks and index entries that follow from it, and private writes that
    become visible when it commits. Every statement reads the tables committed at that
    moment (READ COMMITTED). A charge and a refund call reach the gateway at once and stay
    there when the transaction aborts. */
module Machine {
  import opened Domain
  import opened Serial

  type TxId = int

  /** The next statement of a create. */
  datatype CreatePc = KeyLookup | SeatLock | OverlapQuery | FlushDelete | KeyIndex | SeatIndex | CommitCreate

  /** The next statement of a pay. */
  datatype PayPc = LockPay | CheckPay | PaymentLookup | CallCharge | PaymentIndex | CommitPay

  /** The next statement of a refund. */
  datatype RefundPc = LockRefund | CheckRefund | CallRefund | CommitRefund

  datatype Tx =
    | Creating(a: CreateArgs, cpc: CreatePc, found: Option<BookingId>, at: Time, id: BookingId)
    | Paying(b: BookingId, user: UserId, key: Key, ppc: PayPc, at: Time, paid: Time, charge: Charge)
    | Refunding(b: BookingId, user: UserId, rpc: RefundPc, at: Time, done: Time)
    | Cleaning(scanned: bool, cutoff: Time, pending: set<BookingId>, held: seq<BookingId>)
    | Done(out: Outcome)

  datatype Sys = Sys(db: Database, gateway: Gateway, clock: Time, txs: map<TxId, Tx>)

  /** What a statement leaves open: a fresh booking id or the next row of a scan, and the
      gateway's decision. */
  datatype Choice = Choice(id: BookingId, charge: Charge)

  datatype Act =
    | Tick(to: Time)
    | Begin(t: TxId, tx: Tx)
    | Abort(t: TxId)
    | Statement(t: TxId, ch: Choice)

  // ---------- locks and index entries ----------

  predicate Holds(tx: Tx, b: BookingId) {
    match tx
    case Creating(_, pc, found, _, _) => found == Some(b) && pc != KeyLookup && pc != SeatLock
    case Paying(x, _, _, pc, _, _, _) => x == b && pc != LockPay
    case Refunding(x, _, pc, _, _) => x == b && pc != LockRefund
    case Cleaning(_, _, _, held) => b in held
    case Done(_) => false
  }

  predicate HoldsId(tx: Tx, id: BookingId) {
    tx.Creating? && tx.cpc in {KeyIndex, SeatIndex, CommitCreate} && tx.id == id
  }

  predicate HoldsKey(tx: Tx, key: Key) {
    tx.Creating? && tx.cpc in {SeatIndex, CommitCreate} && tx.a.key == key
  }

  predicate HoldsSeat(tx: Tx, schedule: ScheduleId, seat: SeatId) {
    tx.Creating? && tx.cpc == CommitCreate && tx.a.schedule == schedule && tx.a.seat == seat
  }

  predicate HoldsPaymentKey(tx: Tx, key: Key) {
    tx.Paying? && tx.ppc == CommitPay && tx.key == key
  }

  /** Transaction u has what the next statement of t must wait for. */
  ghost predicate Blocks(db: Database, tx: Tx, other: Tx) {
    match tx
    case Creating(a, pc, _, _, _) =>
      || (pc == SeatLock && SeatHolder(db, a.schedule, a.seat).Some?
         && Holds(other, SeatHolder(db, a.schedule, a.seat).value))
      || (pc == KeyIndex && HoldsKey(other, a.key))
      || (pc == SeatIndex && HoldsSeat(other, a.schedule, a.seat))
    case Paying(b, _, key, pc, _, _, _) =>
      || (pc == LockPay && b in db.bookings && Holds(other, b))
      || (pc == PaymentIndex && HoldsPaymentKey(other, key))
    case Refunding(b, _, pc, _, _) => pc == LockRefund && b in db.bookings && Holds(other, b)
    case Cleaning(_, _, _, _) => false
    case Done(_) => false
  }

  ghost predicate WaitsFor(s: Sys, t: TxId, u: TxId) {
    t in s.txs && u in s.txs && t != u && Blocks(s.db, s.txs[t], s.txs[u])
  }

  ghost predicate RowFree(s: Sys, t: TxId, b: BookingId) {
    forall u <- s.txs :: u != t ==> !Holds(s.txs[u], b)
  }

  // ---------- statements ----------

  predicate Starting(tx: Tx, clock: Time) {
    match tx
    case Creating(_, pc, found, _, _) => pc == KeyLookup && found == None
    case Paying(_, _, _, pc, _, _, _) => pc == LockPay
    case Refunding(_, _, pc, _, _) => pc == LockRefund
    case Cleaning(scanned, cutoff, pending, held) => !scanned && cutoff == clock && pending == {} && held == []
    case Done(_) => false
  }

  /** The choice fits the next statement of t. */
  ghost predicate Fits(s: Sys, t: TxId, ch: Choice)
    requires t in s.txs
  {
    match s.txs[t]
    case Creating(_, pc, _, _, _) =>
      pc == FlushDelete ==> ch.id !in s.db.bookings && forall u <- s.txs :: u != t ==> !HoldsId(s.txs[u], ch.id)
    case Paying(_, _, key, pc, _, _, _) =>
      pc == CallCharge && key in s.gateway.outcomes ==> ch.charge == s.gateway.outcomes[key]
    case Cleaning(scanned, _, pending, _) => scanned && pending != {} ==> ch.id in pending
    case Refunding(_, _, _, _, _) => true
    case Done(_) => false
  }

  ghost function NextCreate(c: Catalog, s: Sys, tx: Tx, ch: Choice): (Database, Tx)
    requires c.Valid() && tx.Creating?
  {
    var a := tx.a;
    match tx.cpc
    case KeyLookup =>
      var row := KeyHolder(s.db, a.key);
      (s.db, if row.Some? then Done(Found(row.value)) else tx.(cpc := SeatLock))
    case SeatLock =>
      var row := SeatHolder(s.db, a.schedule, a.seat);
      (s.db, if row.Some? && s.db.bookings[row.value].status.Active() then Done(SeatTaken)
             else tx.(cpc := OverlapQuery, found := row))
    case OverlapQuery =>
      var hits := OverlapHits(c, s.db, a.user, a.schedule);
      (s.db, if a.schedule !in c.schedules then Done(NotFound)
             else if hits != {} then Done(if |hits| == 1 then JourneyOverlap else ServerError)
             else if a.seat !in c.seats then Done(NotFound)
             else tx.(cpc := FlushDelete))
    case FlushDelete =>
      (s.db, if tx.found.Some? && HasChildren(s.db, tx.found.value) then Done(ServerError)
             else tx.(cpc := KeyIndex, at := s.clock, id := ch.id))
    case KeyIndex =>
      (s.db, if KeyHolder(s.db, a.key).Some? then Done(ServerError) else tx.(cpc := SeatIndex))
    case SeatIndex =>
      var row := SeatHolder(s.db, a.schedule, a.seat);
      (s.db, if (row.Some? && row != tx.found) || a.user !in c.users then Done(ServerError)
             else tx.(cpc := CommitCreate))
    case CommitCreate =>
      (if a.seat in c.seats then CreateWrite(c, s.db, a, tx.found, tx.at, tx.id) else s.db, Done(Created(tx.id)))
  }

  ghost function NextPay(s: Sys, tx: Tx, ch: Choice): (Database, Gateway, Tx)
    requires tx.Paying?
  {
    var here := tx.b in s.db.bookings;
    match tx.ppc
    case LockPay => (s.db, s.gateway, if here then tx.(ppc := CheckPay) else Done(NotFound))
    case CheckPay =>
      var stop := if here then PayGuard(s.db.bookings[tx.b], tx.user, s.clock) else Some(NotFound);
      (s.db, s.gateway, if stop.Some? then Done(stop.value) else tx.(ppc := PaymentLookup, at := s.clock))
    case PaymentLookup =>
      (s.db, s.gateway, if tx.key in s.db.payments then Done(Found(tx.b)) else tx.(ppc := CallCharge))
    case CallCharge =>
      (s.db, s.gateway.(outcomes := s.gateway.outcomes[tx.key := ch.charge]),
       tx.(ppc := PaymentIndex, charge := ch.charge, paid := s.clock))
    case PaymentIndex =>
      (s.db, s.gateway, if tx.key in s.db.payments then Done(ServerError) else tx.(ppc := CommitPay))
    case CommitPay =>
      (if here then PayWrite(s.db, tx.b, tx.user, tx.key, tx.charge, tx.paid) else s.db, s.gateway, Done(Settled(tx.b)))
  }

  ghost function NextRefund(c: Catalog, s: Sys, tx: Tx): (Database, Gateway, Tx)
    requires tx.Refunding?
  {
    var here := tx.b in s.db.bookings;
    match tx.rpc
    case LockRefund => (s.db, s.gateway, if here then tx.(rpc := CheckRefund) else Done(NotFound))
    case CheckRefund =>
      var stop := if here then RefundGuard(c, s.db.bookings[tx.b], tx.user, s.clock) else Some(NotFound);
      (s.db, s.gateway, if stop.Some? then Done(stop.value) else tx.(rpc := CallRefund, at := s.clock))
    case CallRefund =>
      if |Successes(s.db, tx.b)| > 1 then (s.db, s.gateway, Done(ServerError))
      else
        var ref := SuccessRef(s.db, tx.b);
        (s.db, if ref.Some? then s.gateway.(refunds := s.gateway.refunds + [ref.value]) else s.gateway,
         tx.(rpc := CommitRefund, done := s.clock))
    case CommitRefund =>
      (if here then RefundWrite(s.db, tx.b, tx.user, tx.done) else s.db, s.gateway, Done(Settled(tx.b)))
  }

  /** The scan visits the rows of its snapshot one at a time and skips those that are
      locked or no longer match. */
  ghost function NextClean(s: Sys, t: TxId, tx: Tx, ch: Choice): (Database, Tx)
    requires tx.Cleaning?
  {
    if !tx.scanned then
      (s.db, tx.(scanned := true, pending := set b | b in s.db.bookings && Stale(s.db.bookings[b], tx.cutoff)))
    else if tx.pending != {} then
      var take := ch.id in s.db.bookings && Stale(s.db.bookings[ch.id], tx.cutoff) && RowFree(s, t, ch.id);
      (s.db, tx.(pending := tx.pending - {ch.id}, held := if take then tx.held + [ch.id] else tx.held))
    else
      (if forall b <- tx.held :: b in s.db.bookings then Sweep(s.db, tx.held, tx.cutoff) else s.db, Done(Swept))
  }

  ghost function Next(c: Catalog, s: Sys, t: TxId, ch: Choice): Sys
    requires c.Valid() && t in s.txs
  {
    var tx := s.txs[t];
    match tx
    case Creating(_, _, _, _, _) =>
      var (db, tx') := NextCreate(c, s, tx, ch);
      Sys(db, s.gateway, s.clock, s.txs[t := tx'])
    case Paying(_, _, _, _, _, _, _) =>
      var (db, gateway, tx') := NextPay(s, tx, ch);
      Sys(db, gateway, s.clock, s.txs[t := tx'])
    case Refunding(_, _, _, _, _) =>
      var (db, gateway, tx') := NextRefund(c, s, tx);
      Sys(db, gateway, s.clock, s.txs[t := tx'])
    case Cleaning(_, _, _, _) =>
      var (db, tx') := NextClean(s, t, tx, ch);
      Sys(db, s.gateway, s.clock, s.txs[t := tx'])
    case Done(_) => s
  }

  /** No other transaction has what the next statement of t needs. */
  ghost predicate Unblocked(s: Sys, t: TxId)
    requires t in s.txs
  {
    forall u <- s.txs :: u != t ==> !Blocks(s.db, s.txs[t], s.txs[u])
  }

  ghost predicate CanRun(s: Sys, t: TxId, ch: Choice) {
    t in s.txs && !s.txs[t].Done? && Unblocked(s, t) && Fits(s, t, ch)
  }

  ghost predicate Step(c: Catalog, s: Sys, act: Act, s': Sys)
    requires c.Valid()
  {
    match act
    case Tick(to) => s.clock <= to && s' == s.(clock := to)
    case Begin(t, tx) => t !in s.txs && Starting(tx, s.clock) && s' == s.(txs := s.txs[t := tx])
    case Abort(t) => t in s.txs && !s.txs[t].Done? && s' == s.(txs := s.txs[t := Done(Aborted)])
    case Statement(t, ch) => CanRun(s, t, ch) && s' == Next(c, s, t, ch)
  }

  ghost predicate Boot(s: Sys) {
    s.db == Database(map[], map[], []) && s.gateway == Gateway(map[], []) && s.txs == map[]
  }

  /** Nothing is open. */
  predicate Quiet(s: Sys) {
    forall t <- s.txs :: s.txs[t].Done?
  }

  /** Any interleaving of statements, aborts and clock ticks. */
  ghost predicate Path(c: Catalog, tr: seq<Sys>, acts: seq<Act>) {
    && |tr| == |acts| + 1 && c.Valid()
    && forall i | 0 <= i < |acts| :: Step(c, tr[i], acts[i], tr[i + 1])
  }

  /** A run: a path from empty tables. */
  ghost predicate Run(c: Catalog, tr: seq<Sys>, acts: seq<Act>) {
    Path(c, tr, acts) && Boot(tr[0])
  }

  /** The step commits a create for a. */
  predicate IsCreateCommit(s: Sys, act: Act, a: CreateArgs) {
    && act.Statement? && act.t in s.txs
    && s.txs[act.t].Creating? && s.txs[act.t].cpc == CommitCreate && s.txs[act.t].a == a
  }

  predicate CommitsCreate(tr: seq<Sys>, acts: seq<Act>, j: nat, a: CreateArgs) {
    j < |acts| && j < |tr| && IsCreateCommit(tr[j], acts[j], a)
  }
}
