/** The booking operations as atomic functions of the tables, and the facts that every
    reachable state of the tables satisfies. A verdict is the answer an operation stops
    with before it writes; None means that it goes on to its write. */
module Serial {
  import opened Domain
  import opened AuditLog

  // ---------- queries ----------

  ghost predicate HoldsKeyRow(db: Database, key: Key, b: BookingId) {
    b in db.bookings && db.bookings[b].key == key
  }

  ghost function KeyHolder(db: Database, key: Key): Option<BookingId> {
    if b :| HoldsKeyRow(db, key, b) then Some(b) else None
  }

  ghost predicate HoldsSeatRow(db: Database, schedule: ScheduleId, seat: SeatId, b: BookingId) {
    b in db.bookings && db.bookings[b].schedule == schedule && db.bookings[b].seat == seat
  }

  ghost function SeatHolder(db: Database, schedule: ScheduleId, seat: SeatId): Option<BookingId> {
    if b :| HoldsSeatRow(db, schedule, seat, b) then Some(b) else None
  }

  /** Rows of the overlap query: the user's active bookings on journeys that overlap the schedule. */
  ghost function OverlapHits(c: Catalog, db: Database, user: UserId, schedule: ScheduleId): set<BookingId> {
    set b | b in db.bookings && OverlapHit(c, db.bookings[b], user, schedule)
  }

  predicate OverlapHit(c: Catalog, row: Booking, user: UserId, schedule: ScheduleId) {
    && row.user == user && row.status.Active()
    && row.schedule in c.schedules && schedule in c.schedules
    && Overlaps(c.schedules[row.schedule], c.schedules[schedule])
  }

  ghost predicate HasChildren(db: Database, b: BookingId) {
    || (exists e <- db.audit :: e.booking == b)
    || (exists k <- db.payments :: db.payments[k].booking == b)
  }

  // ---------- create ----------

  function ReserveEntry(b: BookingId, user: UserId): Entry {
    Entry(b, user, LogReserved, None, Reserved)
  }

  /** The create operation up to its insert, with the answer of its overlap query given as hits. */
  ghost function CreateVerdict(c: Catalog, db: Database, a: CreateArgs, hits: set<BookingId>): Option<Outcome> {
    var holder := SeatHolder(db, a.schedule, a.seat);
    if KeyHolder(db, a.key).Some? then Some(Found(KeyHolder(db, a.key).value))
    else if holder.Some? && db.bookings[holder.value].status.Active() then Some(SeatTaken)
    else if a.schedule !in c.schedules then Some(NotFound)
    else if hits != {} then Some(if |hits| == 1 then JourneyOverlap else ServerError)
    else if a.seat !in c.seats then Some(NotFound)
    else if holder.Some? && HasChildren(db, holder.value) then Some(ServerError)
    else if a.user !in c.users then Some(ServerError)
    else None
  }

  /** The rows a create commits: the seat's previous row, if any, gives way to a new hold. */
  ghost function CreateWrite(c: Catalog, db: Database, a: CreateArgs, previous: Option<BookingId>, now: Time,
        id: BookingId): Database
    requires c.Valid() && a.seat in c.seats
  {
    var row := Booking(a.user, a.schedule, a.seat, Reserved, a.key, Some(now + HOLD_SECONDS), None, None,
                       PriceOf(c, a.seat));
    var kept := if previous.Some? then db.bookings - {previous.value} else db.bookings;
    db.(bookings := kept[id := row], audit := db.audit + [ReserveEntry(id, a.user)])
  }

  ghost function Create(c: Catalog, db: Database, a: CreateArgs, hits: set<BookingId>, now: Time,
        id: BookingId): (Database, Outcome)
    requires c.Valid()
  {
    match CreateVerdict(c, db, a, hits)
    case Some(out) => (db, out)
    case None => (CreateWrite(c, db, a, SeatHolder(db, a.schedule, a.seat), now, id), Created(id))
  }

  /** A create whose overlap query is answered now. */
  ghost function CreateNow(c: Catalog, db: Database, a: CreateArgs, now: Time, id: BookingId): (Database, Outcome)
    requires c.Valid()
  {
    Create(c, db, a, OverlapHits(c, db, a.user, a.schedule), now, id)
  }

  // ---------- pay ----------

  /** The checks pay makes on the row it locked. */
  function PayGuard(row: Booking, user: UserId, now: Time): Option<Outcome> {
    if row.user != user then Some(Forbidden)
    else if row.status != Reserved then Some(BadState)
    else if Expired(row, now) then Some(HoldExpired)
    else None
  }

  function PayVerdict(db: Database, b: BookingId, user: UserId, key: Key, now: Time): Option<Outcome> {
    if b !in db.bookings then Some(NotFound)
    else if PayGuard(db.bookings[b], user, now).Some? then PayGuard(db.bookings[b], user, now)
    else if key in db.payments then Some(Found(b))
    else None
  }

  function AttemptEntry(b: BookingId, user: UserId): Entry {
    Entry(b, user, LogAttempted, Some(Reserved), Reserved)
  }

  function SettleEntry(b: BookingId, user: UserId, accepted: bool): Entry {
    if accepted then Entry(b, user, LogConfirmed, Some(Reserved), Confirmed)
    else Entry(b, user, LogFailed, Some(Reserved), Cancelled)
  }

  function SettledRow(row: Booking, charge: Charge, now: Time): Booking {
    if charge.Accepted? then row.(status := Confirmed, confirmedAt := Some(now))
    else row.(status := Cancelled, cancelledAt := Some(now))
  }

  ghost function PayWrite(db: Database, b: BookingId, user: UserId, key: Key, charge: Charge, now: Time): Database
    requires b in db.bookings
  {
    var row := db.bookings[b];
    Database(
      db.bookings[b := SettledRow(row, charge, now)],
      db.payments[key := Payment(b, row.total, charge, now)],
      db.audit + [AttemptEntry(b, user), SettleEntry(b, user, charge.Accepted?)])
  }

  ghost function Pay(db: Database, b: BookingId, user: UserId, key: Key, charge: Charge, decided: Time,
        paid: Time): (Database, Outcome) {
    match PayVerdict(db, b, user, key, decided)
    case Some(out) => (db, out)
    case None => (PayWrite(db, b, user, key, charge, paid), Settled(b))
  }

  // ---------- refund ----------

  /** The checks refund makes on the row it locked. */
  function RefundGuard(c: Catalog, row: Booking, user: UserId, now: Time): Option<Outcome> {
    if row.user != user then Some(Forbidden)
    else if row.status != Confirmed then Some(BadState)
    else if row.schedule !in c.schedules then Some(ServerError)
    else if c.schedules[row.schedule].departure < now + REFUND_NOTICE then Some(TooLate)
    else None
  }

  ghost function RefundVerdict(c: Catalog, db: Database, b: BookingId, user: UserId, now: Time): Option<Outcome> {
    if b !in db.bookings then Some(NotFound)
    else if RefundGuard(c, db.bookings[b], user, now).Some? then RefundGuard(c, db.bookings[b], user, now)
    else if |Successes(db, b)| > 1 then Some(ServerError)
    else None
  }

  /** Rows of refund's payment lookup. */
  ghost function Successes(db: Database, b: BookingId): set<Key> {
    set k | k in db.payments && db.payments[k].booking == b && db.payments[k].charge.Accepted?
  }

  ghost function AnyKey(keys: set<Key>): Option<Key> {
    if k :| k in keys then Some(k) else None
  }

  /** The gateway reference that the lookup found. */
  ghost function SuccessRef(db: Database, b: BookingId): Option<Ref> {
    match AnyKey(Successes(db, b))
    case Some(k) => Some(db.payments[k].charge.ref)
    case None => None
  }

  function RefundEntry(b: BookingId, user: UserId): Entry {
    Entry(b, user, LogRefunded, Some(Confirmed), Refunded)
  }

  ghost function RefundWrite(db: Database, b: BookingId, user: UserId, now: Time): Database
    requires b in db.bookings
  {
    db.(bookings := db.bookings[b := db.bookings[b].(status := Refunded, cancelledAt := Some(now))],
        audit := db.audit + [RefundEntry(b, user)])
  }

  ghost function Refund(c: Catalog, db: Database, b: BookingId, user: UserId, decided: Time,
        done: Time): (Database, Outcome) {
    match RefundVerdict(c, db, b, user, decided)
    case Some(out) => (db, out)
    case None => (RefundWrite(db, b, user, done), Settled(b))
  }

  // ---------- cleanup ----------

  predicate Stale(row: Booking, cutoff: Time) {
    row.status == Reserved && Expired(row, cutoff)
  }

  function ExpireEntry(b: BookingId): Entry {
    Entry(b, SYSTEM_USER, LogExpired, Some(Reserved), Cancelled)
  }

  ghost function ExpireOne(db: Database, b: BookingId, cutoff: Time): Database
    requires b in db.bookings
  {
    db.(bookings := db.bookings[b := db.bookings[b].(status := Cancelled, cancelledAt := Some(cutoff))],
        audit := db.audit + [ExpireEntry(b)])
  }

  ghost predicate Sweepable(db: Database, ids: seq<BookingId>, cutoff: Time) {
    && (forall b <- ids :: b in db.bookings && Stale(db.bookings[b], cutoff))
    && (forall i, j | 0 <= i < j < |ids| :: ids[i] != ids[j])
  }

  /** One cleanup pass over the rows it locked, in the order of its loop. */
  ghost function Sweep(db: Database, ids: seq<BookingId>, cutoff: Time): (r: Database)
    requires forall b <- ids :: b in db.bookings
    ensures r.bookings.Keys == db.bookings.Keys
  {
    if ids == [] then db
    else ExpireOne(Sweep(db, ids[..|ids| - 1], cutoff), ids[|ids| - 1], cutoff)
  }

  // ---------- what every reachable state satisfies ----------

  ghost function PaymentsOf(db: Database, b: BookingId): set<Key> {
    set k | k in db.payments && db.payments[k].booking == b
  }

  ghost predicate PaidOnce(db: Database, b: BookingId, accepted: bool) {
    && |PaymentsOf(db, b)| == 1
    && forall k <- PaymentsOf(db, b) :: db.payments[k].charge.Accepted? == accepted
  }

  /** The only trails a booking can have, by its status. */
  function HeldTrail(b: BookingId, u: UserId): seq<Entry> { [ReserveEntry(b, u)] }

  function PaidTrail(b: BookingId, u: UserId): seq<Entry> {
    HeldTrail(b, u) + [AttemptEntry(b, u), SettleEntry(b, u, true)]
  }

  function FailedTrail(b: BookingId, u: UserId): seq<Entry> {
    HeldTrail(b, u) + [AttemptEntry(b, u), SettleEntry(b, u, false)]
  }

  function ExpiredTrail(b: BookingId, u: UserId): seq<Entry> { HeldTrail(b, u) + [ExpireEntry(b)] }

  function RefundedTrail(b: BookingId, u: UserId): seq<Entry> { PaidTrail(b, u) + [RefundEntry(b, u)] }

  /** Status, trail and payments of a booking agree. */
  ghost predicate Told(db: Database, b: BookingId)
    requires b in db.bookings
  {
    var row := db.bookings[b];
    var t := Trail(db.audit, b);
    match row.status
    case Reserved => t == HeldTrail(b, row.user) && PaymentsOf(db, b) == {}
    case Confirmed => t == PaidTrail(b, row.user) && PaidOnce(db, b, true)
    case Refunded => t == RefundedTrail(b, row.user) && PaidOnce(db, b, true)
    case Cancelled =>
      || (t == FailedTrail(b, row.user) && PaidOnce(db, b, false))
      || (t == ExpiredTrail(b, row.user) && PaymentsOf(db, b) == {})
  }

  /** The time stamps of a row say which changes it went through. */
  predicate Stamped(row: Booking) {
    && (row.confirmedAt.Some? <==> row.status in {Confirmed, Refunded})
    && (row.cancelledAt.Some? <==> row.status in {Cancelled, Refunded})
  }

  /** Foreign keys of a booking row, its price, its expiry and its time stamps. */
  ghost predicate RowOk(c: Catalog, row: Booking) {
    && c.Valid() && Stamped(row)
    && row.user in c.users && row.schedule in c.schedules && row.seat in c.seats
    && row.total == PriceOf(c, row.seat) && row.expiresAt.Some?
  }

  ghost predicate PaymentOk(db: Database, outcomes: map<Key, Charge>, k: Key)
    requires k in db.payments
  {
    var p := db.payments[k];
    && p.booking in db.bookings && p.amount == db.bookings[p.booking].total
    && k in outcomes && outcomes[k] == p.charge
  }

  ghost predicate SeatsUnique(db: Database) {
    forall b1, b2 | b1 in db.bookings && b2 in db.bookings && b1 != b2 ::
      db.bookings[b1].schedule != db.bookings[b2].schedule || db.bookings[b1].seat != db.bookings[b2].seat
  }

  ghost predicate KeysUnique(db: Database) {
    forall b1, b2 | b1 in db.bookings && b2 in db.bookings && b1 != b2 ::
      db.bookings[b1].key != db.bookings[b2].key
  }

  ghost predicate Consistent(c: Catalog, db: Database, outcomes: map<Key, Charge>) {
    && c.Valid() && SeatsUnique(db) && KeysUnique(db)
    && (forall b <- db.bookings :: RowOk(c, db.bookings[b]) && Told(db, b))
    && (forall k <- db.payments :: PaymentOk(db, outcomes, k))
    && (forall e <- db.audit :: e.booking in db.bookings)
  }

  /** The user has no two active bookings whose journeys overlap. */
  ghost predicate DisjointFor(c: Catalog, db: Database, user: UserId) {
    forall b1, b2 | b1 in db.bookings && b2 in db.bookings && b1 != b2 && InUse(db.bookings[b1], user) ::
      !OverlapHit(c, db.bookings[b2], user, db.bookings[b1].schedule)
  }

  predicate InUse(row: Booking, user: UserId) {
    row.user == user && row.status.Active()
  }

  ghost predicate JourneysDisjoint(c: Catalog, db: Database) {
    forall user: UserId :: DisjointFor(c, db, user)
  }

  // ---------- serial runs ----------

  datatype State = State(db: Database, gateway: Gateway, clock: Time)

  /** Atomic operations. Times at which a guard was decided are part of the operation. */
  datatype Op =
    | Tick(to: Time)
    | ChargeOp(key: Key, charge: Charge)
    | RefundCall(ref: Ref)
    | CreateOp(a: CreateArgs, hits: set<BookingId>, at: Time, id: BookingId)
    | PayOp(b: BookingId, user: UserId, key: Key, charge: Charge, decided: Time, paid: Time)
    | RefundOp(b: BookingId, user: UserId, decided: Time, done: Time)
    | SweepOp(ids: seq<BookingId>, cutoff: Time)

  /** The operation can run in s and commits a write there. */
  ghost predicate Enabled(c: Catalog, s: State, op: Op) {
    match op
    case Tick(to) => s.clock <= to
    case ChargeOp(key, charge) => key in s.gateway.outcomes ==> s.gateway.outcomes[key] == charge
    case RefundCall(ref) => true
    case CreateOp(a, hits, at, id) =>
      c.Valid() && id !in s.db.bookings && at <= s.clock && Create(c, s.db, a, hits, at, id).1 == Created(id)
    case PayOp(b, user, key, charge, decided, paid) =>
      && decided <= paid <= s.clock && key in s.gateway.outcomes && s.gateway.outcomes[key] == charge
      && Pay(s.db, b, user, key, charge, decided, paid).1 == Settled(b)
    case RefundOp(b, user, decided, done) =>
      && decided <= done <= s.clock && Refund(c, s.db, b, user, decided, done).1 == Settled(b)
      && exists k <- Successes(s.db, b) :: s.db.payments[k].charge.ref in s.gateway.refunds
    case SweepOp(ids, cutoff) => cutoff <= s.clock && Sweepable(s.db, ids, cutoff)
  }

  ghost function Exec(c: Catalog, s: State, op: Op): State
    requires Enabled(c, s, op)
  {
    match op
    case Tick(to) => s.(clock := to)
    case ChargeOp(key, charge) => s.(gateway := s.gateway.(outcomes := s.gateway.outcomes[key := charge]))
    case RefundCall(ref) => s.(gateway := s.gateway.(refunds := s.gateway.refunds + [ref]))
    case CreateOp(a, hits, at, id) => s.(db := Create(c, s.db, a, hits, at, id).0)
    case PayOp(b, user, key, charge, decided, paid) => s.(db := Pay(s.db, b, user, key, charge, decided, paid).0)
    case RefundOp(b, user, decided, done) => s.(db := Refund(c, s.db, b, user, decided, done).0)
    case SweepOp(ids, cutoff) => s.(db := Sweep(s.db, ids, cutoff))
  }

  ghost predicate Start(s: State) {
    s.db == Database(map[], map[], []) && s.gateway == Gateway(map[], [])
  }

  /** A serial run: states[i + 1] is what ops[i] makes of states[i]. */
  ghost predicate SerialRun(c: Catalog, states: seq<State>, ops: seq<Op>) {
    && |states| == |ops| + 1 && c.Valid() && Start(states[0])
    && forall i | 0 <= i < |ops| :: Enabled(c, states[i], ops[i]) && states[i + 1] == Exec(c, states[i], ops[i])
  }
}
