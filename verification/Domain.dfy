/** The tables of the booking engine and the values stored in them.
    Times are integers on one clock: seconds for holds and cached maps, any unit for the rate
    limiter. Money is an integer number of hundredths. */
module Domain {
  datatype Option<+T> = None | Some(value: T)

  type Time = int
  type Money = int
  type UserId = int
  type TrainId = int
  type ScheduleId = int
  type CompartmentId = int
  type SeatId = int
  type BookingId = int
  type Key = int
  type Ref = int

  const SYSTEM_USER: UserId := 0
  const HOLD_SECONDS: Time := 300
  const REFUND_NOTICE: Time := 3600

  datatype Status = Reserved | Confirmed | Cancelled | Refunded {
    predicate Active() { Reserved? || Confirmed? }
  }

  datatype Schedule = Schedule(train: TrainId, departure: Time, arrival: Time)

  datatype Compartment = Compartment(train: TrainId, name: string, compType: string)

  datatype Seat = Seat(compartment: CompartmentId, number: int, position: string)

  /** The tables no booking operation writes. */
  datatype Catalog = Catalog(
    users: set<UserId>,
    trains: map<TrainId, string>,
    schedules: map<ScheduleId, Schedule>,
    compartments: map<CompartmentId, Compartment>,
    seats: map<SeatId, Seat>)
  {
    // The foreign keys of schedules and seats, and the user that the cleanup task signs its
    // entries with. Trains are known by their names.
    ghost predicate Valid() {
      && SYSTEM_USER in users
      && (forall x <- schedules :: schedules[x].train in trains)
      && forall s <- seats :: seats[s].compartment in compartments
    }
  }

  datatype Booking = Booking(
    user: UserId,
    schedule: ScheduleId,
    seat: SeatId,
    status: Status,
    key: Key,
    expiresAt: Option<Time>,
    confirmedAt: Option<Time>,
    cancelledAt: Option<Time>,
    total: Money)

  /** What the gateway recorded for a key: a reference, or a refusal. */
  datatype Charge = Accepted(ref: Ref) | Declined

  datatype Payment = Payment(booking: BookingId, amount: Money, charge: Charge, completedAt: Time)

  datatype Action = LogReserved | LogAttempted | LogConfirmed | LogFailed | LogRefunded | LogExpired

  datatype Entry = Entry(booking: BookingId, user: UserId, action: Action, previous: Option<Status>, next: Status)

  /** The tables that bookings write. A payment sits under its UNIQUE idempotency key. */
  datatype Database = Database(
    bookings: map<BookingId, Booking>,
    payments: map<Key, Payment>,
    audit: seq<Entry>)

  /** The in-process gateway: the outcome kept for each key, and the refund calls it received. */
  datatype Gateway = Gateway(outcomes: map<Key, Charge>, refunds: seq<Ref>)

  datatype CreateArgs = CreateArgs(user: UserId, schedule: ScheduleId, seat: SeatId, key: Key)

  datatype Outcome =
    | Created(id: BookingId)
    | Found(id: BookingId)
    | SeatTaken
    | JourneyOverlap
    | NotFound
    | Forbidden
    | BadState
    | HoldExpired
    | TooLate
    | Settled(id: BookingId)
    | Swept
    | ServerError
    | Aborted

  predicate Expired(row: Booking, now: Time) {
    row.expiresAt.Some? && row.expiresAt.value < now
  }

  /** The join condition of the overlap query. */
  predicate Overlaps(x: Schedule, y: Schedule) {
    x.departure < y.arrival && x.arrival > y.departure
  }

  function Price(compType: string): Money {
    if compType == "ac" then 150000 else 80000
  }

  function PriceOf(c: Catalog, seat: SeatId): Money
    requires seat in c.seats && c.seats[seat].compartment in c.compartments
  {
    Price(c.compartments[c.seats[seat].compartment].compType)
  }

  /** The train of schedule x is under way at time t. */
  predicate UnderWay(x: Schedule, t: Time) {
    x.departure <= t < x.arrival
  }

  ghost predicate Intersect(x: Schedule, y: Schedule) {
    exists t: Time :: UnderWay(x, t) && UnderWay(y, t)
  }

  /** A schedule departs before it arrives exactly when, against every such schedule,
      the condition of the query means that the half-open journeys share an instant. */
  lemma OverlapIsIntersection(x: Schedule)
    ensures x.departure < x.arrival <==>
            forall y: Schedule | y.departure < y.arrival :: Overlaps(x, y) <==> Intersect(x, y)
  {
    if x.departure < x.arrival {
      forall y: Schedule | y.departure < y.arrival
        ensures Overlaps(x, y) <==> Intersect(x, y)
      {
        var t := if x.departure < y.departure then y.departure else x.departure;
        assert Overlaps(x, y) ==> UnderWay(x, t) && UnderWay(y, t);
      }
    } else {
      var y := Schedule(x.train, x.arrival - 1, x.departure + 1);
      assert Overlaps(x, y) && !Intersect(x, y);
    }
  }
}
