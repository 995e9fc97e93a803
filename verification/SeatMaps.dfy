/** The seat map of a schedule: the rows of the outer join and the counting loop over them. */
module SeatMaps {
  import opened Domain
  import opened Serial
  import Sets

  /** A row of the join: a seat with a matching booking, or a seat alone. */
  datatype Row = Row(seat: SeatId, booking: Option<BookingId>)

  datatype SeatEntry = SeatEntry(id: SeatId, number: int, position: string, compartment: string, compType: string,
        status: Option<Status>)

  datatype Payload = Payload(schedule: ScheduleId, trainName: string, total: nat, available: nat, seats: seq<SeatEntry>)

  function TrainSeats(c: Catalog, train: TrainId): set<SeatId>
    requires forall s <- c.seats :: c.seats[s].compartment in c.compartments
  {
    set s | s in c.seats && c.compartments[c.seats[s].compartment].train == train
  }

  predicate Matches(db: Database, b: BookingId, schedule: ScheduleId, seat: SeatId) {
    b in db.bookings && db.bookings[b].seat == seat && db.bookings[b].schedule == schedule
        && db.bookings[b].status.Active()
  }

  ghost predicate Taken(db: Database, schedule: ScheduleId, seat: SeatId) {
    exists b :: Matches(db, b, schedule, seat)
  }

  /** The train's seats with a reserved or confirmed booking on the schedule. */
  ghost function TakenSeats(c: Catalog, db: Database, schedule: ScheduleId): set<SeatId>
    requires c.Valid() && schedule in c.schedules
  {
    set s | s in TrainSeats(c, c.schedules[schedule].train) && Taken(db, schedule, s)
  }

  ghost predicate InJoin(c: Catalog, db: Database, schedule: ScheduleId, row: Row)
    requires c.Valid() && schedule in c.schedules
  {
    && row.seat in TrainSeats(c, c.schedules[schedule].train)
    && if row.booking.Some? then Matches(db, row.booking.value, schedule, row.seat) else !Taken(db, schedule, row.seat)
  }

  predicate AtMost(x: string, y: string) {
    x == "" || (y != "" && (x[0] < y[0] || (x[0] == y[0] && AtMost(x[1..], y[1..]))))
  }

  /** ORDER BY compartment name, then seat number. */
  ghost predicate Ordered(c: Catalog, s: SeatId, t: SeatId)
    requires c.Valid()
  {
    s in c.seats && t in c.seats &&
    var x, y := c.compartments[c.seats[s].compartment].name, c.compartments[c.seats[t].compartment].name;
    if x == y then c.seats[s].number <= c.seats[t].number else AtMost(x, y)
  }

  /** The rows the database may return: each row of the join once, in the order asked for. */
  ghost predicate QueryResult(c: Catalog, db: Database, schedule: ScheduleId, rows: seq<Row>)
    requires c.Valid() && schedule in c.schedules
  {
    && (forall row :: row in rows <==> InJoin(c, db, schedule, row))
    && (forall i, j | 0 <= i < j < |rows| :: rows[i] != rows[j])
    && forall i, j | 0 <= i < j < |rows| :: Ordered(c, rows[i].seat, rows[j].seat)
  }

  function EntryOf(c: Catalog, db: Database, row: Row): SeatEntry
    requires c.Valid() && row.seat in c.seats && (row.booking.Some? ==> row.booking.value in db.bookings)
  {
    var comp := c.compartments[c.seats[row.seat].compartment];
    SeatEntry(row.seat, c.seats[row.seat].number, c.seats[row.seat].position, comp.name, comp.compType,
              if row.booking.Some? then Some(db.bookings[row.booking.value].status) else None)
  }

  function Ids(p: Payload): (ids: seq<SeatId>)
    ensures |ids| == |p.seats| && forall i | 0 <= i < |ids| :: ids[i] == p.seats[i].id
  {
    seq(|p.seats|, i requires 0 <= i < |p.seats| => p.seats[i].id)
  }

  /** What a seat map says about the tables. */
  ghost predicate IsSeatMap(c: Catalog, db: Database, schedule: ScheduleId, p: Payload) {
    && c.Valid() && schedule in c.schedules
    && p.schedule == schedule && p.trainName == c.trains[c.schedules[schedule].train]
    && var all := TrainSeats(c, c.schedules[schedule].train);
    && (forall i, j | 0 <= i < j < |p.seats| :: Ids(p)[i] != Ids(p)[j])
    && (forall s :: s in Ids(p) <==> s in all)
    && (forall i, j | 0 <= i < j < |p.seats| :: Ordered(c, p.seats[i].id, p.seats[j].id))
    && (forall i | 0 <= i < |p.seats| :: EntryIsRight(c, db, schedule, p.seats[i]))
    && p.total == |p.seats| == |all|
    && p.available == |all| - |TakenSeats(c, db, schedule)|
  }

  ghost predicate EntryIsRight(c: Catalog, db: Database, schedule: ScheduleId, e: SeatEntry)
    requires c.Valid()
  {
    && e.id in c.seats && e.number == c.seats[e.id].number && e.position == c.seats[e.id].position
    && e.compartment == c.compartments[c.seats[e.id].compartment].name
    && e.compType == c.compartments[c.seats[e.id].compartment].compType
    && (e.status == None <==> !Taken(db, schedule, e.id))
    && (e.status.Some? ==> exists b :: Matches(db, b, schedule, e.id) && db.bookings[b].status == e.status.value)
  }

  // ---------- the map in the columns of the tables ----------

  /** At place k the names differ for the first time, and x has the smaller character. */
  predicate SmallerAt(x: string, y: string, k: nat) {
    k < |x| && k < |y| && x[..k] == y[..k] && x[k] < y[k]
  }

  lemma SmallerInTail(x: string, y: string, k: nat)
    requires x != "" && y != "" && x[0] == y[0]
    ensures SmallerAt(x, y, k + 1) <==> SmallerAt(x[1..], y[1..], k)
  {
    if k < |x| - 1 && k < |y| - 1 {
      assert x[..k + 1] == [x[0]] + x[1..][..k] && y[..k + 1] == [y[0]] + y[1..][..k];
      assert x[..k + 1][1..] == x[1..][..k] && y[..k + 1][1..] == y[1..][..k];
    }
  }

  lemma BeginningInTail(x: string, y: string)
    requires x != "" && y != "" && x[0] == y[0]
    ensures x <= y <==> x[1..] <= y[1..]
  {
    assert x == [x[0]] + x[1..] && y == [y[0]] + y[1..];
  }

  lemma StartsDiffer(x: string, y: string, k: nat)
    requires 0 < k <= |x| && k <= |y| && x[0] != y[0]
    ensures x[..k] != y[..k]
  {
    assert x[..k][0] == x[0] && y[..k][0] == y[0];
  }

  /** The order by name is that of the first place where two names differ, and a name comes
      after its beginnings. */
  lemma {:induction false} AtMostIsLexicographic(x: string, y: string)
    ensures AtMost(x, y) <==> x <= y || exists k: nat :: SmallerAt(x, y, k)
  {
    if x == "" {
      assert x <= y;
    } else if y != "" && x[0] == y[0] {
      AtMostIsLexicographic(x[1..], y[1..]);
      BeginningInTail(x, y);
      if k: nat :| SmallerAt(x[1..], y[1..], k) {
        SmallerInTail(x, y, k);
      }
      if k: nat :| SmallerAt(x, y, k) {
        SmallerInTail(x, y, k - 1);
      }
    } else if y != "" {
      assert x[0] < y[0] ==> SmallerAt(x, y, 0);
      forall k: nat | 0 < k < |x| && k < |y|
        ensures !SmallerAt(x, y, k)
      {
        StartsDiffer(x, y, k);
      }
    }
  }

  /** A row holds the seat: it is reserved or confirmed on the schedule. */
  lemma TakenInColumns(db: Database, schedule: ScheduleId, seat: SeatId)
    ensures Taken(db, schedule, seat) <==> exists b ::
              && b in db.bookings && db.bookings[b].schedule == schedule && db.bookings[b].seat == seat
              && db.bookings[b].status in {Reserved, Confirmed}
  {
    if b :| b in db.bookings && db.bookings[b].schedule == schedule && db.bookings[b].seat == seat
            && db.bookings[b].status in {Reserved, Confirmed}
    {
      assert Matches(db, b, schedule, seat);
    }
  }

  /** The seats in the map are those of the schedule's train, each once, with their columns. */
  lemma MapListsTheTrain(c: Catalog, db: Database, schedule: ScheduleId, p: Payload)
    requires IsSeatMap(c, db, schedule, p)
    ensures p.schedule == schedule && p.trainName == c.trains[c.schedules[schedule].train] && p.total == |p.seats|
    ensures forall s :: s in Ids(p) <==>
              s in c.seats && c.compartments[c.seats[s].compartment].train == c.schedules[schedule].train
    ensures forall i, j | 0 <= i < j < |p.seats| :: p.seats[i].id != p.seats[j].id
    ensures forall i | 0 <= i < |p.seats| ::
              && p.seats[i].id in c.seats && p.seats[i].number == c.seats[p.seats[i].id].number
              && p.seats[i].position == c.seats[p.seats[i].id].position
              && p.seats[i].compartment == c.compartments[c.seats[p.seats[i].id].compartment].name
              && p.seats[i].compType == c.compartments[c.seats[p.seats[i].id].compartment].compType
    ensures forall i, j | 0 <= i < j < |p.seats| ::
              if p.seats[i].compartment == p.seats[j].compartment then p.seats[i].number <= p.seats[j].number
              else AtMost(p.seats[i].compartment, p.seats[j].compartment)
  {
    forall s
      ensures s in Ids(p) <==>
              s in c.seats && c.compartments[c.seats[s].compartment].train == c.schedules[schedule].train
    {
      assert s in Ids(p) <==> s in TrainSeats(c, c.schedules[schedule].train);
    }
    forall i, j | 0 <= i < j < |p.seats|
      ensures p.seats[i].id != p.seats[j].id
    {
      assert Ids(p)[i] != Ids(p)[j];
    }
    forall i, j | 0 <= i < j < |p.seats|
      ensures if p.seats[i].compartment == p.seats[j].compartment then p.seats[i].number <= p.seats[j].number
              else AtMost(p.seats[i].compartment, p.seats[j].compartment)
    {
      assert EntryIsRight(c, db, schedule, p.seats[i]) && EntryIsRight(c, db, schedule, p.seats[j]);
      assert Ordered(c, p.seats[i].id, p.seats[j].id);
    }
  }

  /** An entry is free exactly when no reserved or confirmed row holds its seat, and shows the
      status of the row that does. */
  lemma MapShowsStatuses(c: Catalog, db: Database, schedule: ScheduleId, p: Payload, i: nat)
    requires IsSeatMap(c, db, schedule, p) && SeatsUnique(db) && i < |p.seats|
    ensures p.seats[i].status == None <==> forall b <- db.bookings ::
              !(&& db.bookings[b].schedule == schedule && db.bookings[b].seat == p.seats[i].id
                && db.bookings[b].status in {Reserved, Confirmed})
    ensures forall b <- db.bookings ::
              db.bookings[b].schedule == schedule && db.bookings[b].seat == p.seats[i].id
              && db.bookings[b].status in {Reserved, Confirmed} ==>
                p.seats[i].status == Some(db.bookings[b].status)
  {
    assert EntryIsRight(c, db, schedule, p.seats[i]);
    TakenInColumns(db, schedule, p.seats[i].id);
  }

  /** The number of available seats is that of the train's seats which no such row holds. */
  lemma MapCountsFreeSeats(c: Catalog, db: Database, schedule: ScheduleId, p: Payload, free: set<SeatId>)
    requires IsSeatMap(c, db, schedule, p)
    requires forall s :: s in free <==>
               && s in c.seats && c.compartments[c.seats[s].compartment].train == c.schedules[schedule].train
               && !exists b :: && b in db.bookings && db.bookings[b].schedule == schedule && db.bookings[b].seat == s
                               && db.bookings[b].status in {Reserved, Confirmed}
    ensures p.available == |free|
  {
    var all, taken := TrainSeats(c, c.schedules[schedule].train), TakenSeats(c, db, schedule);
    forall s
      ensures s in free <==> s in all - taken
    {
      TakenInColumns(db, schedule, s);
    }
    Sets.Contained(free, all - taken);
    Sets.Contained(all - taken, free);
    assert free == all - taken;
    Sets.Parts(all, taken);
  }

  // ---------- the loop ----------

  method BuildSeatMap(c: Catalog, db: Database, schedule: ScheduleId, rows: seq<Row>) returns (p: Payload)
    requires c.Valid() && schedule in c.schedules && SeatsUnique(db) && QueryResult(c, db, schedule, rows)
    ensures IsSeatMap(c, db, schedule, p)
  {
    var seats: seq<SeatEntry> := [];
    var available := 0;
    var i := 0;
    while i < |rows|
      invariant 0 <= i <= |rows| == |rows| && |seats| == i
      invariant forall k | 0 <= k < i ::
                  rows[k] in rows && InJoin(c, db, schedule, rows[k]) && seats[k] == EntryOf(c, db, rows[k])
      invariant available == |FreeSeats(rows[..i])|
    {
      assert rows[i] in rows && InJoin(c, db, schedule, rows[i]);
      var entry := EntryOf(c, db, rows[i]);
      seats := seats + [entry];
      NextSeat(c, db, schedule, rows, i);
      if entry.status == None {
        available := available + 1;
      }
      i := i + 1;
    }
    p := Payload(schedule, c.trains[c.schedules[schedule].train], |seats|, available, seats);
    assert rows[..i] == rows;
    MapIsExact(c, db, schedule, rows, p);
  }

  ghost function Rows(rows: seq<Row>): set<Row> { set row | row in rows }

  ghost function FreeRows(rows: seq<Row>): set<Row> { set row | row in rows && row.booking == None }

  function SeatOf(row: Row): SeatId { row.seat }

  /** Seats of the rows, and those among them without a booking. */
  ghost function AllSeats(rows: seq<Row>): set<SeatId> { Sets.Image(Rows(rows), SeatOf) }

  ghost function FreeSeats(rows: seq<Row>): set<SeatId> { Sets.Image(FreeRows(rows), SeatOf) }

  lemma SameSeatSameRow(c: Catalog, db: Database, schedule: ScheduleId, x: Row, y: Row)
    requires c.Valid() && schedule in c.schedules && SeatsUnique(db)
    requires InJoin(c, db, schedule, x) && InJoin(c, db, schedule, y) && x.seat == y.seat
    ensures x == y
  {
  }

  /** Because no seat has two rows in the table, the join has one row for each seat. */
  lemma OneRowPerSeat(c: Catalog, db: Database, schedule: ScheduleId, rows: seq<Row>, i: nat, j: nat)
    requires c.Valid() && schedule in c.schedules && SeatsUnique(db) && QueryResult(c, db, schedule, rows)
    requires i < j < |rows|
    ensures rows[i].seat != rows[j].seat
  {
    assert rows[i] in rows && rows[j] in rows && rows[i] != rows[j];
    if rows[i].seat == rows[j].seat {
      SameSeatSameRow(c, db, schedule, rows[i], rows[j]);
    }
  }

  lemma NextSeat(c: Catalog, db: Database, schedule: ScheduleId, rows: seq<Row>, i: nat)
    requires c.Valid() && schedule in c.schedules && SeatsUnique(db) && QueryResult(c, db, schedule, rows)
    requires i < |rows|
    ensures |AllSeats(rows[..i + 1])| == |AllSeats(rows[..i])| + 1
    ensures |FreeSeats(rows[..i + 1])| == |FreeSeats(rows[..i])| + if rows[i].booking == None then 1 else 0
  {
    var front, row := rows[..i], rows[i];
    assert rows[..i + 1] == front + [row];
    forall x | x in front
      ensures x.seat != row.seat
    {
      var k :| 0 <= k < i && x == front[k];
      OneRowPerSeat(c, db, schedule, rows, k, i);
    }
    SeatsOfLonger(front, row);
    FreeOfLonger(front, row);
  }

  lemma SeatsOfLonger(front: seq<Row>, row: Row)
    requires forall x <- front :: x.seat != row.seat
    ensures |AllSeats(front + [row])| == |AllSeats(front)| + 1
  {
    assert Rows(front + [row]) == Rows(front) + {row};
    Sets.ImageGrows(Rows(front), row, SeatOf);
  }

  lemma FreeOfLonger(front: seq<Row>, row: Row)
    requires forall x <- front :: x.seat != row.seat
    ensures |FreeSeats(front + [row])| == |FreeSeats(front)| + if row.booking == None then 1 else 0
  {
    if row.booking == None {
      assert FreeRows(front + [row]) == FreeRows(front) + {row};
      Sets.ImageGrows(FreeRows(front), row, SeatOf);
    } else {
      assert FreeRows(front + [row]) == FreeRows(front);
    }
  }

  lemma {:induction false} RowsCount(c: Catalog, db: Database, schedule: ScheduleId, rows: seq<Row>, n: nat)
    requires c.Valid() && schedule in c.schedules && SeatsUnique(db) && QueryResult(c, db, schedule, rows)
    requires n <= |rows|
    ensures |AllSeats(rows[..n])| == n
  {
    if n > 0 {
      RowsCount(c, db, schedule, rows, n - 1);
      NextSeat(c, db, schedule, rows, n - 1);
    }
  }

  lemma RowOfSeat(c: Catalog, db: Database, schedule: ScheduleId, rows: seq<Row>, s: SeatId) returns (i: nat)
    requires c.Valid() && schedule in c.schedules && QueryResult(c, db, schedule, rows)
    requires s in TrainSeats(c, c.schedules[schedule].train)
    ensures i < |rows| && rows[i].seat == s && (rows[i].booking.None? <==> !Taken(db, schedule, s))
  {
    var row := Row(s, None);
    if b :| Matches(db, b, schedule, s) {
      row := Row(s, Some(b));
    }
    assert InJoin(c, db, schedule, row) && row in rows;
    i :| 0 <= i < |rows| && rows[i] == row;
  }

  lemma SeatsAreAll(c: Catalog, db: Database, schedule: ScheduleId, rows: seq<Row>)
    requires c.Valid() && schedule in c.schedules && SeatsUnique(db) && QueryResult(c, db, schedule, rows)
    ensures var all := TrainSeats(c, c.schedules[schedule].train);
      AllSeats(rows) == all && FreeSeats(rows) == all - TakenSeats(c, db, schedule)
  {
    var all := TrainSeats(c, c.schedules[schedule].train);
    assert forall row <- rows :: InJoin(c, db, schedule, row);
    assert AllSeats(rows) <= all;
    forall s | s in all
      ensures s in AllSeats(rows)
    {
      var i := RowOfSeat(c, db, schedule, rows, s);
      assert rows[i] in Rows(rows) && SeatOf(rows[i]) == s;
    }
    Sets.Contained(all, AllSeats(rows));
    var free := all - TakenSeats(c, db, schedule);
    forall s | s in free
      ensures s in FreeSeats(rows)
    {
      var i := RowOfSeat(c, db, schedule, rows, s);
      assert rows[i] in FreeRows(rows) && SeatOf(rows[i]) == s;
    }
    Sets.Contained(free, FreeSeats(rows));
  }

  lemma SeatsCounted(c: Catalog, db: Database, schedule: ScheduleId, rows: seq<Row>)
    requires c.Valid() && schedule in c.schedules && SeatsUnique(db) && QueryResult(c, db, schedule, rows)
    ensures var all := TrainSeats(c, c.schedules[schedule].train);
      |rows| == |all| && |FreeSeats(rows)| == |all| - |TakenSeats(c, db, schedule)|
  {
    var all, taken := TrainSeats(c, c.schedules[schedule].train), TakenSeats(c, db, schedule);
    SeatsAreAll(c, db, schedule, rows);
    assert rows[..|rows|] == rows;
    RowsCount(c, db, schedule, rows, |rows|);
    Sets.Parts(all, taken);
  }

  /** The entries name each seat of the train once. */
  lemma SeatsListed(c: Catalog, db: Database, schedule: ScheduleId, rows: seq<Row>, ids: seq<SeatId>)
    requires c.Valid() && schedule in c.schedules && SeatsUnique(db) && QueryResult(c, db, schedule, rows)
    requires |ids| == |rows| && forall k | 0 <= k < |rows| :: ids[k] == rows[k].seat
    ensures forall i, j | 0 <= i < j < |ids| :: ids[i] != ids[j]
    ensures forall s :: s in ids <==> s in TrainSeats(c, c.schedules[schedule].train)
  {
    forall i, j | 0 <= i < j < |rows|
      ensures ids[i] != ids[j]
    {
      OneRowPerSeat(c, db, schedule, rows, i, j);
    }
    assert forall i | 0 <= i < |rows| :: rows[i] in rows && InJoin(c, db, schedule, rows[i]);
    forall s | s in TrainSeats(c, c.schedules[schedule].train)
      ensures s in ids
    {
      var i := RowOfSeat(c, db, schedule, rows, s);
      assert ids[i] == s;
    }
  }

  lemma EntryFromJoin(c: Catalog, db: Database, schedule: ScheduleId, row: Row)
    requires c.Valid() && schedule in c.schedules && InJoin(c, db, schedule, row)
    ensures EntryIsRight(c, db, schedule, EntryOf(c, db, row))
  {
  }

  lemma MapIsExact(c: Catalog, db: Database, schedule: ScheduleId, rows: seq<Row>, p: Payload)
    requires c.Valid() && schedule in c.schedules && SeatsUnique(db) && QueryResult(c, db, schedule, rows)
    requires forall k | 0 <= k < |rows| :: InJoin(c, db, schedule, rows[k])
    requires p.schedule == schedule && p.trainName == c.trains[c.schedules[schedule].train]
    requires p.total == |p.seats| == |rows| && p.available == |FreeSeats(rows)|
    requires forall k | 0 <= k < |rows| :: p.seats[k] == EntryOf(c, db, rows[k])
    ensures IsSeatMap(c, db, schedule, p)
  {
    SeatsCounted(c, db, schedule, rows);
    SeatsListed(c, db, schedule, rows, Ids(p));
    forall i | 0 <= i < |p.seats|
      ensures EntryIsRight(c, db, schedule, p.seats[i])
    {
      EntryFromJoin(c, db, schedule, rows[i]);
    }
  }
}
