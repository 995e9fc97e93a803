/** The cached seat map: the handler that reads through the cache, and the age of what any
    interleaving of readers, commits and deletes can return. */
module SeatCache {
  import opened Domain
  import opened Serial
  import opened SeatMaps
  import Sets

  const TTL: Time := 5

  // ---------- the handler ----------

  datatype Cached = Cached(payload: Payload, expireAt: Time)

  class Cache {
    var entries: map<ScheduleId, Cached>

    constructor ()
      ensures entries == map[]
    {
      entries := map[];
    }

    /** The entry of a schedule while it has not expired. */
    function Fresh(schedule: ScheduleId, now: Time): Option<Payload>
      reads this
    {
      if schedule in entries && now < entries[schedule].expireAt then Some(entries[schedule].payload) else None
    }

    method Set(schedule: ScheduleId, payload: Payload, now: Time)
      modifies this
      ensures entries == old(entries)[schedule := Cached(payload, now + 5)]
    {
      entries := entries[schedule := Cached(payload, now + TTL)];
    }

    /** Best effort: nothing happens while Redis is down. */
    method Invalidate(schedule: ScheduleId, up: bool)
      modifies this
      ensures entries == if up then old(entries) - {schedule} else old(entries)
      ensures up ==> forall now :: Fresh(schedule, now) == None
    {
      if up {
        entries := entries - {schedule};
      }
    }
  }

  /** rows is what the query returns if it runs; canRead and canWrite say whether Redis answers. */
  method GetSeatAvailability(c: Catalog, db: Database, cache: Cache, schedule: ScheduleId, rows: seq<Row>,
                             canRead: bool, canWrite: bool, now: Time, later: Time) returns (p: Option<Payload>)
    requires c.Valid() && SeatsUnique(db) && (schedule in c.schedules ==> QueryResult(c, db, schedule, rows))
    modifies cache
    ensures var hit := canRead && schedule in old(cache.entries) && now < old(cache.entries)[schedule].expireAt;
      if hit then p == Some(old(cache.entries)[schedule].payload) && cache.entries == old(cache.entries)
      else if schedule !in c.schedules then p == None && cache.entries == old(cache.entries)
      else
        && p.Some? && IsSeatMap(c, db, schedule, p.value)
        && cache.entries == if canWrite then old(cache.entries)[schedule := Cached(p.value, later + 5)]
           else old(cache.entries)
  {
    if canRead {
      var cached := cache.Fresh(schedule, now);
      if cached.Some? {
        return cached;
      }
    }
    if schedule !in c.schedules {
      return None;
    }
    var payload := BuildSeatMap(c, db, schedule, rows);
    if canWrite {
      cache.Set(schedule, payload, later);
    }
    return Some(payload);
  }

  // ---------- interleavings, for one schedule ----------

  /** A committed state of the tables and the time of its commit. */
  datatype Version = Version(since: Time, db: Database)

  /** A map together with the number of the version it was read from and the time of the query. */
  datatype View = View(payload: Payload, seen: nat, queried: Time)

  /** A cache entry and the time at which its reader wrote it. */
  datatype Held = Held(view: View, written: Time)

  datatype Reader =
    | Looking
    | Built(view: View)
    | Answered(view: View, written: Option<Time>, at: Time)

  datatype World = World(clock: Time, versions: seq<Version>, entry: Option<Held>, readers: map<int, Reader>)

  /** A reader that cannot reach Redis queries, or fails to write; a delete may be lost or
      come at any time, and a cleanup pass commits without one. */
  datatype Act =
    | Pass(to: Time)
    | CommitDb(db: Database)
    | Delete
    | StartReader(r: int)
    | HitCache(r: int)
    | QueryDb(r: int, payload: Payload)
    | WriteCache(r: int, ok: bool)

  function Latest(w: World): Version
    requires w.versions != []
  {
    w.versions[|w.versions| - 1]
  }

  ghost predicate Step(c: Catalog, schedule: ScheduleId, w: World, act: Act, w': World) {
    && w.versions != []
    && match act
       case Pass(to) => w.clock <= to && w' == w.(clock := to)
       case CommitDb(db) => w' == w.(versions := w.versions + [Version(w.clock, db)])
       case Delete => w' == w.(entry := None)
       case StartReader(r) => r !in w.readers && w' == w.(readers := w.readers[r := Looking])
       case HitCache(r) =>
         && r in w.readers && w.readers[r].Looking? && w.entry.Some? && w.clock < w.entry.value.written + TTL
         && var e := w.entry.value;
         w' == w.(readers := w.readers[r := Answered(e.view, Some(e.written), w.clock)])
       case QueryDb(r, payload) =>
         && r in w.readers && w.readers[r].Looking? && IsSeatMap(c, Latest(w).db, schedule, payload)
         && w' == w.(readers := w.readers[r := Built(View(payload, |w.versions| - 1, w.clock))])
       case WriteCache(r, ok) =>
         && r in w.readers && w.readers[r].Built?
         && var view := w.readers[r].view;
         w' == w.(entry := if ok then Some(Held(view, w.clock)) else w.entry,
                  readers := w.readers[r := Answered(view, None, w.clock)])
  }

  ghost predicate CacheRun(c: Catalog, schedule: ScheduleId, ws: seq<World>, acts: seq<Act>) {
    && CachePath(c, schedule, ws, acts)
    && |ws[0].versions| == 1 && ws[0].versions[0].since <= ws[0].clock && ws[0].entry == None && ws[0].readers == map[]
  }

  ghost predicate CachePath(c: Catalog, schedule: ScheduleId, ws: seq<World>, acts: seq<Act>) {
    && |ws| == |acts| + 1
    && forall i | 0 <= i < |acts| :: Step(c, schedule, ws[i], acts[i], ws[i + 1])
  }

  /** Version i was the committed state at time t. */
  predicate Current(versions: seq<Version>, i: int, t: Time) {
    0 <= i < |versions| && versions[i].since <= t && (i + 1 < |versions| ==> t <= versions[i + 1].since)
  }

  /** The map shows the state that was committed when it was queried. */
  ghost predicate Genuine(c: Catalog, schedule: ScheduleId, versions: seq<Version>, v: View) {
    Current(versions, v.seen, v.queried) && IsSeatMap(c, versions[v.seen].db, schedule, v.payload)
  }

  /** How old an answer can be: its query is in the past, and if it came from the cache, it
      was written less than TTL before. */
  predicate Timely(a: Reader)
    requires a.Answered?
  {
    var queried := a.view.queried;
    queried <= a.at && (a.written.Some? ==> queried <= a.written.value <= a.at < a.written.value + TTL)
  }

  ghost predicate Sound(c: Catalog, schedule: ScheduleId, w: World) {
    && w.versions != [] && Latest(w).since <= w.clock
    && (w.entry.Some? ==> var e := w.entry.value;
        e.view.queried <= e.written <= w.clock && Genuine(c, schedule, w.versions, e.view))
    && (forall r <- w.readers ::
          match w.readers[r]
          case Looking => true
          case Built(v) => v.queried <= w.clock && Genuine(c, schedule, w.versions, v)
          case Answered(v, _, at) => at <= w.clock && Timely(w.readers[r]) && Genuine(c, schedule, w.versions, v))
  }

  lemma StepIsSound(c: Catalog, schedule: ScheduleId, w: World, act: Act, w': World)
    requires Sound(c, schedule, w) && Step(c, schedule, w, act, w')
    ensures Sound(c, schedule, w')
  {
    match act
    case CommitDb(db) => CommitIsSound(c, schedule, w, db);
    case QueryDb(r, payload) => assert Genuine(c, schedule, w.versions, w'.readers[r].view);
    case _ =>
  }

  lemma CommitIsSound(c: Catalog, schedule: ScheduleId, w: World, db: Database)
    requires Sound(c, schedule, w)
    ensures Sound(c, schedule, w.(versions := w.versions + [Version(w.clock, db)]))
  {
    var versions := w.versions + [Version(w.clock, db)];
    forall v: View | Genuine(c, schedule, w.versions, v) && v.queried <= w.clock
      ensures Genuine(c, schedule, versions, v)
    {
      assert versions[v.seen] == w.versions[v.seen];
    }
  }

  lemma {:induction false} RunIsSound(c: Catalog, schedule: ScheduleId, ws: seq<World>, acts: seq<Act>, n: nat)
    requires CacheRun(c, schedule, ws, acts) && n < |ws|
    ensures Sound(c, schedule, ws[n])
  {
    if n > 0 {
      RunIsSound(c, schedule, ws, acts, n - 1);
      StepIsSound(c, schedule, ws[n - 1], acts[n - 1], ws[n]);
    }
  }

  /** Theorem: whatever is interleaved, deleted late, lost or failed, an answer shows the
      tables as they were committed at one moment, and that moment is less than TTL plus
      the longest time a reader takes from its query to its write in the past. */
  lemma AnswersAreRecent(c: Catalog, schedule: ScheduleId, ws: seq<World>, acts: seq<Act>, n: nat, r: int, gap: Time)
    requires CacheRun(c, schedule, ws, acts) && n < |ws|
    requires r in ws[n].readers && ws[n].readers[r].Answered?
    requires var a := ws[n].readers[r]; gap >= (if a.written.Some? then a.written.value else a.at) - a.view.queried
    ensures var a := ws[n].readers[r];
      && Genuine(c, schedule, ws[n].versions, a.view)
      && a.view.queried <= a.at < a.view.queried + gap + 5
  {
    RunIsSound(c, schedule, ws, acts, n);
    assert Timely(ws[n].readers[r]);
  }

  // ---------- when a delete is enough for fresh answers ----------

  /** No reader is about to write a map from before version n. */
  ghost predicate NoneBehind(w: World, n: nat) {
    forall r <- w.readers :: w.readers[r].Built? ==> n <= w.readers[r].view.seen
  }

  /** A later reader is one that had not started in world w. */
  ghost predicate AnswersLater(c: Catalog, schedule: ScheduleId, w: World, ws: seq<World>, acts: seq<Act>, r: int) {
    && CachePath(c, schedule, ws, acts) && ws[0] == w && r !in w.readers
    && r in ws[|acts|].readers && ws[|acts|].readers[r].Answered?
  }

  /** Entry, maps under way and answers of later readers are no older than version n. */
  ghost predicate FreshFrom(w0: World, w: World, n: nat) {
    && n < |w.versions| && NoneBehind(w, n)
    && (w.entry.Some? ==> n <= w.entry.value.view.seen)
    && forall r <- w.readers :: r !in w0.readers && w.readers[r].Answered? ==> n <= w.readers[r].view.seen
  }

  lemma {:induction false} FreshStays(c: Catalog, schedule: ScheduleId, w0: World, ws: seq<World>, acts: seq<Act>,
        n: nat, k: nat)
    requires CachePath(c, schedule, ws, acts) && FreshFrom(w0, ws[0], n) && k < |ws|
    ensures FreshFrom(w0, ws[k], n)
  {
    if k > 0 {
      FreshStays(c, schedule, w0, ws, acts, n, k - 1);
      assert Step(c, schedule, ws[k - 1], acts[k - 1], ws[k]);
    }
  }

  /** A reader that is behind writes, and a new one is answered with what it wrote. */
  lemma SlowReaderWins(c: Catalog, schedule: ScheduleId, w: World, slow: int)
      returns (ws: seq<World>, acts: seq<Act>, r: int)
    requires w.versions != [] && slow in w.readers && w.readers[slow].Built?
    ensures AnswersLater(c, schedule, w, ws, acts, r) && ws[|acts|].readers[r].view == w.readers[slow].view
  {
    r := Sets.Unused(w.readers.Keys);
    assert r !in w.readers;
    var view := w.readers[slow].view;
    var w1 := w.(entry := Some(Held(view, w.clock)), readers := w.readers[slow := Answered(view, None, w.clock)]);
    var w2 := w1.(readers := w1.readers[r := Looking]);
    var w3 := w2.(readers := w2.readers[r := Answered(view, Some(w.clock), w.clock)]);
    ws, acts := [w, w1, w2, w3], [WriteCache(slow, true), StartReader(r), HitCache(r)];
    assert Step(c, schedule, w, acts[0], w1) && Step(c, schedule, w1, acts[1], w2)
        && Step(c, schedule, w2, acts[2], w3);
  }

  /** Theorem: after a delete every reader that starts later is answered from the version
      committed at the delete or a later one, however the run goes on, exactly when no
      reader that queried an earlier version has yet to write. */
  lemma DeleteSufficesExactly(c: Catalog, schedule: ScheduleId, before: World, w: World)
    requires Step(c, schedule, before, Delete, w)
    ensures (forall ws: seq<World>, acts: seq<Act>, r: int ::
               AnswersLater(c, schedule, w, ws, acts, r) ==> |w.versions| - 1 <= ws[|acts|].readers[r].view.seen)
            <==> NoneBehind(w, |w.versions| - 1)
  {
    var n := |w.versions| - 1;
    if NoneBehind(w, n) {
      forall ws: seq<World>, acts: seq<Act>, r: int | AnswersLater(c, schedule, w, ws, acts, r)
        ensures n <= ws[|acts|].readers[r].view.seen
      {
        FreshStays(c, schedule, w, ws, acts, n, |acts|);
      }
    } else {
      var slow :| slow in w.readers && w.readers[slow].Built? && w.readers[slow].view.seen < n;
      var ws, acts, r := SlowReaderWins(c, schedule, w, slow);
      assert AnswersLater(c, schedule, w, ws, acts, r);
    }
  }

  // ---------- a stale answer long after the delete ----------

  /** Reader 0 queries at time 0 and is slow to write; at `late` a commit and its delete come
      first, then the write; reader 1 starts and is answered at `end`. */
  ghost function SlowReaderTrace(db0: Database, db1: Database, p: Payload, late: Time, end: Time): seq<World> {
    var one, two := [Version(0, db0)], [Version(0, db0), Version(late, db1)];
    var view := View(p, 0, 0);
    var done, held := Answered(view, None, late), Some(Held(view, late));
    [World(0, one, None, map[]),
     World(0, one, None, map[0 := Looking]),
     World(0, one, None, map[0 := Built(view)]),
     World(late, one, None, map[0 := Built(view)]),
     World(late, two, None, map[0 := Built(view)]),
     World(late, two, None, map[0 := Built(view)]),
     World(late, two, held, map[0 := done]),
     World(end, two, held, map[0 := done]),
     World(end, two, held, map[0 := done, 1 := Looking]),
     World(end, two, held, map[0 := done, 1 := Answered(view, Some(late), end)])]
  }

  ghost function SlowReaderScript(db1: Database, p: Payload, late: Time, end: Time): seq<Act> {
    [StartReader(0), QueryDb(0, p), Pass(late), CommitDb(db1), Delete, WriteCache(0, true), Pass(end),
        StartReader(1), HitCache(1)]
  }

  /** The delete that follows a commit can lose to a slow reader: for almost five seconds after
      it, a reader that starts then is answered with a map that no longer holds. */
  lemma DeleteLosesToSlowReader(c: Catalog, schedule: ScheduleId, db0: Database, db1: Database, p: Payload,
        late: Time, end: Time)
    requires IsSeatMap(c, db0, schedule, p) && !IsSeatMap(c, db1, schedule, p) && 0 <= late <= end < late + 5
    ensures var ws, acts := SlowReaderTrace(db0, db1, p, late, end), SlowReaderScript(db1, p, late, end);
      && CacheRun(c, schedule, ws, acts)
      && acts[3..5] == [CommitDb(db1), Delete] && ws[5].clock == late
      && acts[7] == StartReader(1) && ws[9].clock == end && ws[9].readers[1].Answered?
      && Latest(ws[9]).db == db1 && !IsSeatMap(c, Latest(ws[9]).db, schedule, ws[9].readers[1].view.payload)
  {
    var ws, acts := SlowReaderTrace(db0, db1, p, late, end), SlowReaderScript(db1, p, late, end);
    forall i | 0 <= i < |acts|
      ensures Step(c, schedule, ws[i], acts[i], ws[i + 1])
    {
      SlowReaderStep(c, schedule, db0, db1, p, late, end, i);
    }
  }

  lemma SlowReaderStep(c: Catalog, schedule: ScheduleId, db0: Database, db1: Database, p: Payload, late: Time,
        end: Time, i: nat)
    requires IsSeatMap(c, db0, schedule, p) && 0 <= late <= end < late + 5 && i < 9
    ensures Step(c, schedule, SlowReaderTrace(db0, db1, p, late, end)[i], SlowReaderScript(db1, p, late, end)[i],
                 SlowReaderTrace(db0, db1, p, late, end)[i + 1])
  {
    var ws := SlowReaderTrace(db0, db1, p, late, end);
    if i == 3 {
      assert ws[3].versions + [Version(late, db1)] == ws[4].versions;
    }
  }

  /** A create that commits makes every exact map of the tables before it wrong. */
  lemma CreateSpoilsMaps(c: Catalog, db: Database, a: CreateArgs, now: Time, id: BookingId, p: Payload)
    requires c.Valid() && a.schedule in c.schedules && a.seat in TrainSeats(c, c.schedules[a.schedule].train)
    requires !Taken(db, a.schedule, a.seat) && IsSeatMap(c, db, a.schedule, p)
    ensures !IsSeatMap(c, CreateWrite(c, db, a, None, now, id), a.schedule, p)
  {
    var db' := CreateWrite(c, db, a, None, now, id);
    assert Matches(db', id, a.schedule, a.seat);
    assert a.seat in Ids(p);
    var i :| 0 <= i < |p.seats| && Ids(p)[i] == a.seat;
    assert EntryIsRight(c, db, a.schedule, p.seats[i]) && p.seats[i].status == None;
  }

  /** So a booking can be committed and its key deleted, and for almost five seconds the seat
      is still offered as free. */
  lemma BookedSeatIsStillOffered(c: Catalog, db: Database, a: CreateArgs, now: Time, id: BookingId, p: Payload,
        late: Time, end: Time)
    requires c.Valid() && a.schedule in c.schedules && a.seat in TrainSeats(c, c.schedules[a.schedule].train)
    requires !Taken(db, a.schedule, a.seat) && IsSeatMap(c, db, a.schedule, p) && 0 <= late <= end < late + 5
    ensures var db' := CreateWrite(c, db, a, None, now, id);
      var ws, acts := SlowReaderTrace(db, db', p, late, end), SlowReaderScript(db', p, late, end);
      && CacheRun(c, a.schedule, ws, acts) && acts[3..5] == [CommitDb(db'), Delete] && acts[7] == StartReader(1)
      && ws[5].clock == late && ws[9].clock == end && ws[9].readers[1].Answered? && Latest(ws[9]).db == db'
      && Taken(db', a.schedule, a.seat)
      && exists e <- ws[9].readers[1].view.payload.seats :: e.id == a.seat && e.status == None
  {
    var db' := CreateWrite(c, db, a, None, now, id);
    CreateSpoilsMaps(c, db, a, now, id, p);
    DeleteLosesToSlowReader(c, a.schedule, db, db', p, late, end);
    assert Matches(db', id, a.schedule, a.seat);
    assert a.seat in Ids(p);
    var i :| 0 <= i < |p.seats| && Ids(p)[i] == a.seat;
    assert EntryIsRight(c, db, a.schedule, p.seats[i]) && p.seats[i] in p.seats;
  }
}
