/** The sliding-window limiter over a Redis sorted set, against the full history of requests. */
module RateLimit {
  import opened Domain
  import Sets

  datatype Result = Result(allowed: bool, remaining: int, retryAfter: Time)

  /** A sorted set whose members are their own scores, and the time at which the key expires. */
  datatype SortedSet = SortedSet(scores: set<Time>, expireAt: Option<Time>)

  // ---------- what one call does, as a function ----------

  /** A key that has expired is gone. */
  function Live(z: SortedSet, now: Time): SortedSet {
    if z.expireAt.Some? && z.expireAt.value <= now then SortedSet({}, None) else z
  }

  function Trim(scores: set<Time>, low: Time, high: Time): set<Time> {
    set t | t in scores && !(low <= t <= high)
  }

  function AfterCall(z: SortedSet, window: Time, now: Time): SortedSet {
    SortedSet(Trim(Live(z, now).scores, 0, now - window) + {now}, Some(now + window))
  }

  function Verdict(count: int, limit: int, window: Time): Result {
    if count > limit then Result(false, 0, window) else Result(true, limit - count, 0)
  }

  // ---------- the store and the limiter ----------

  class Redis {
    var keys: map<string, SortedSet>

    constructor ()
      ensures keys == map[]
    {
      keys := map[];
    }

    function At(key: string): SortedSet
      reads this
    {
      if key in keys then keys[key] else SortedSet({}, None)
    }

    /** Expiry is noticed when the key is next used. */
    method Touch(key: string, now: Time)
      modifies this
      ensures var z := old(At(key));
        At(key) == if z.expireAt.Some? && z.expireAt.value <= now then SortedSet({}, None) else z
      ensures keys - {key} == old(keys) - {key}
    {
      keys := keys[key := Live(At(key), now)];
    }

    method ZRemRangeByScore(key: string, low: Time, high: Time)
      modifies this
      ensures At(key).expireAt == old(At(key)).expireAt && keys - {key} == old(keys) - {key}
      ensures At(key).scores == Trim(old(At(key)).scores, low, high)
      ensures forall t :: t in At(key).scores <==> t in old(At(key)).scores && !(low <= t <= high)
    {
      var z := At(key);
      keys := keys[key := z.(scores := set t | t in z.scores && !(low <= t <= high))];
    }

    method ZAdd(key: string, score: Time)
      modifies this
      ensures At(key) == old(At(key)).(scores := old(At(key)).scores + {score}) && keys - {key} == old(keys) - {key}
    {
      keys := keys[key := At(key).(scores := At(key).scores + {score})];
    }

    method ZCard(key: string) returns (count: nat)
      ensures count == |At(key).scores|
    {
      count := |At(key).scores|;
    }

    method Expire(key: string, at: Time)
      modifies this
      ensures At(key) == old(At(key)).(expireAt := Some(at)) && keys - {key} == old(keys) - {key}
    {
      keys := keys[key := At(key).(expireAt := Some(at))];
    }

    /** The limiter's pipeline, which Redis runs as one transaction. */
    method Execute(key: string, window: Time, now: Time) returns (count: nat)
      modifies this
      ensures At(key) == AfterCall(old(At(key)), window, now) && keys - {key} == old(keys) - {key}
      ensures At(key).expireAt == Some(now + window) && count == |At(key).scores|
    {
      Touch(key, now);
      ZRemRangeByScore(key, 0, now - window);
      ZAdd(key, now);
      count := ZCard(key);
      Expire(key, now + window);
    }
  }

  class RateLimiter {
    const redis: Redis

    constructor (redis: Redis)
      ensures this.redis == redis
    {
      this.redis := redis;
    }

    /** now stands for the clock and up for a reachable Redis. */
    method Check(key: string, limit: int, window: Time, now: Time, up: bool) returns (r: Result)
      modifies redis
      ensures !up ==> redis.keys == old(redis.keys) && r == Result(true, limit, 0)
      ensures up ==> redis.At(key) == AfterCall(old(redis.At(key)), window, now)
      ensures up ==> redis.keys - {key} == old(redis.keys) - {key}
      ensures up ==> (r.allowed <==> |redis.At(key).scores| <= limit)
      ensures up && r.allowed ==> r.remaining == limit - |redis.At(key).scores| && r.retryAfter == 0
      ensures up && !r.allowed ==> r.remaining == 0 && r.retryAfter == window
      ensures up ==> r == Verdict(|redis.At(key).scores|, limit, window)
    {
      if !up {
        return Result(true, limit, 0);
      }
      var count := redis.Execute(key, window, now);
      if count > limit {
        return Result(false, 0, window);
      }
      return Result(true, limit - count, 0);
    }
  }

  // ---------- one client's history ----------

  /** The requests of one client, oldest first, in clock time. */
  ghost predicate History(calls: seq<Time>) {
    (forall i | 0 <= i < |calls| :: 0 <= calls[i]) && forall i, j | 0 <= i <= j < |calls| :: calls[i] <= calls[j]
  }

  ghost function StoreAfter(calls: seq<Time>, window: Time): SortedSet {
    if calls == [] then SortedSet({}, None)
    else AfterCall(StoreAfter(calls[..|calls| - 1], window), window, calls[|calls| - 1])
  }

  /** Distinct times of requests in (now - window, now]. */
  ghost function Recent(calls: seq<Time>, window: Time, now: Time): set<Time> {
    set t | t in calls && now - window < t <= now
  }

  /** The answer to request i. */
  ghost function AnswerTo(calls: seq<Time>, limit: int, window: Time, i: nat): Result
    requires i < |calls|
  {
    Verdict(|StoreAfter(calls[..i + 1], window).scores|, limit, window)
  }

  /** One more request, seen by a store that holds what is recent. */
  lemma OneMoreCall(front: seq<Time>, window: Time, now: Time)
    requires History(front + [now]) && front != [] && window > 0
    ensures var last := front[|front| - 1];
      AfterCall(SortedSet(Recent(front, window, last), Some(last + window)), window, now).scores
      == Recent(front + [now], window, now)
  {
    var last, calls := front[|front| - 1], front + [now];
    assert calls[|front| - 1] == last && calls[|front|] == now;
    assert forall t <- front :: 0 <= t <= last by {
      assert forall i | 0 <= i < |front| :: front[i] == calls[i];
    }
    var z := SortedSet(Recent(front, window, last), Some(last + window));
    var after := AfterCall(z, window, now).scores;
    forall t | t in after
      ensures t in Recent(calls, window, now)
    {
      assert t in front || t == now;
    }
    forall t | t in Recent(calls, window, now)
      ensures t in after
    {
      assert t in front || t == now;
    }
  }

  /** Neither trimming nor key expiry loses a request that counts, and nothing else is kept. */
  lemma {:induction false} StoreIsRecent(calls: seq<Time>, window: Time)
    requires History(calls) && calls != [] && window > 0
    ensures var last := calls[|calls| - 1];
      StoreAfter(calls, window) == SortedSet(Recent(calls, window, last), Some(last + window))
  {
    var n := |calls| - 1;
    var front, now := calls[..n], calls[n];
    assert calls == front + [now];
    if front == [] {
      assert Recent(calls, window, now) == {now};
    } else {
      StoreIsRecent(front, window);
      OneMoreCall(front, window, now);
    }
  }

  /** The limiter answers every request as if it looked at the whole history. */
  lemma AnswersFromHistory(calls: seq<Time>, limit: int, window: Time, i: nat)
    requires History(calls) && i < |calls| && window > 0
    ensures AnswerTo(calls, limit, window, i) == Verdict(|Recent(calls[..i + 1], window, calls[i])|, limit, window)
  {
    StoreIsRecent(calls[..i + 1], window);
  }

  /** The answer without any name of the model: the request is allowed exactly when no more
      than limit distinct times of requests up to it lie less than a window before it; the
      rest of the limit remains, and a refused client is sent away for a window. */
  lemma AnswerInNumbers(calls: seq<Time>, limit: int, window: Time, i: nat, recent: set<Time>)
    requires History(calls) && i < |calls| && window > 0
    requires forall t :: t in recent <==> t in calls[..i + 1] && calls[i] - window < t
    ensures var r := AnswerTo(calls, limit, window, i);
      && (r.allowed <==> |recent| <= limit)
      && (r.allowed ==> r.remaining == limit - |recent| && r.retryAfter == 0)
      && (!r.allowed ==> r.remaining == 0 && r.retryAfter == window)
  {
    AnswersFromHistory(calls, limit, window, i);
    forall t | t in recent
      ensures t in Recent(calls[..i + 1], window, calls[i])
    {
      var k :| 0 <= k < i + 1 && calls[..i + 1][k] == t;
      assert calls[k] == t;
    }
    Sets.Contained(recent, Recent(calls[..i + 1], window, calls[i]));
    Sets.Contained(Recent(calls[..i + 1], window, calls[i]), recent);
    assert recent == Recent(calls[..i + 1], window, calls[i]);
  }

  /** The two requests at 0 and 10 of a client with five in sixty seconds. */
  lemma SecondRequestIsAllowed()
    ensures AnswerTo([0, 10], 5, 60, 1) == Result(true, 3, 0)
  {
    var recent: set<Time> := {0, 10};
    assert [0, 10][..2] == [0, 10];
    AnswerInNumbers([0, 10], 5, 60, 1, recent);
  }

  // ---------- what the window guarantees ----------

  /** Request k lies in the window (x - window, x] and was allowed. */
  ghost predicate AllowedIn(calls: seq<Time>, limit: int, window: Time, x: Time, k: nat)
    requires k < |calls|
  {
    x - window < calls[k] <= x && AnswerTo(calls, limit, window, k).allowed
  }

  ghost function AllowedCalls(calls: seq<Time>, limit: int, window: Time, x: Time): set<int> {
    set i | 0 <= i < |calls| && AllowedIn(calls, limit, window, x, i)
  }

  function TimeOf(calls: seq<Time>, i: int): Time {
    if 0 <= i < |calls| then calls[i] else 0
  }

  ghost function TimesOf(calls: seq<Time>, requests: set<int>): set<Time> {
    set i | i in requests :: TimeOf(calls, i)
  }

  ghost function AllowedTimes(calls: seq<Time>, limit: int, window: Time, x: Time): set<Time> {
    TimesOf(calls, AllowedCalls(calls, limit, window, x))
  }

  lemma {:induction false} LastIndex(p: int -> bool, n: nat) returns (i: nat)
    requires exists k :: 0 <= k < n && p(k)
    ensures i < n && p(i) && forall k | i < k < n :: !p(k)
  {
    if p(n - 1) {
      i := n - 1;
    } else {
      i := LastIndex(p, n - 1);
    }
  }

  lemma AllowedSawFew(calls: seq<Time>, limit: nat, window: Time, x: Time, i: nat)
    requires History(calls) && window > 0 && i in AllowedCalls(calls, limit, window, x)
    ensures |Recent(calls[..i + 1], window, calls[i])| <= limit && x - window < calls[i] <= x
  {
    AnswersFromHistory(calls, limit, window, i);
  }

  lemma EarlierIsRecent(calls: seq<Time>, window: Time, x: Time, k: nat, i: nat)
    requires History(calls) && k <= i < |calls| && x - window < calls[k] && calls[i] <= x
    ensures calls[k] in Recent(calls[..i + 1], window, calls[i])
  {
    assert calls[k] == calls[..i + 1][k];
  }

  lemma AllowedAreRecent(calls: seq<Time>, window: Time, x: Time, allowed: set<int>, i: nat)
    requires History(calls) && i < |calls| && calls[i] <= x
    requires forall k <- allowed :: 0 <= k <= i && x - window < calls[k]
    ensures |TimesOf(calls, allowed)| <= |Recent(calls[..i + 1], window, calls[i])|
  {
    var times := TimesOf(calls, allowed);
    forall k | k in allowed
      ensures TimeOf(calls, k) in Recent(calls[..i + 1], window, calls[i])
    {
      EarlierIsRecent(calls, window, x, k, i);
    }
    Sets.Smaller(times, Recent(calls[..i + 1], window, calls[i]));
  }

  lemma FewTimes(calls: seq<Time>, limit: nat, window: Time, x: Time, requests: set<int>)
    requires History(calls)
    requires forall k <- requests :: 0 <= k < |calls| && x - window < calls[k] <= x
    requires forall k <- requests :: |Recent(calls[..k + 1], window, calls[k])| <= limit
    ensures |TimesOf(calls, requests)| <= limit
  {
    if requests == {} {
      assert TimesOf(calls, requests) == {};
    } else {
      var p := (k: int) => k in requests;
      var one := Sets.Pick(requests);
      assert p(one);
      var i := LastIndex(p, |calls|);
      forall k <- requests
        ensures k <= i
      {
        assert p(k);
      }
      AllowedAreRecent(calls, window, x, requests, i);
    }
  }

  /** No window of the given length holds allowed requests at more than `limit` distinct times. */
  lemma WindowBound(calls: seq<Time>, limit: nat, window: Time, x: Time)
    requires History(calls) && window > 0
    ensures |AllowedTimes(calls, limit, window, x)| <= limit
  {
    var allowed := AllowedCalls(calls, limit, window, x);
    forall k | k in allowed
      ensures |Recent(calls[..k + 1], window, calls[k])| <= limit && x - window < calls[k] <= x
    {
      AllowedSawFew(calls, limit, window, x, k);
    }
    FewTimes(calls, limit, window, x, allowed);
  }

  /** Requests of the client at time t. */
  ghost function AtTime(calls: seq<Time>, t: Time): set<int> {
    set i | 0 <= i < |calls| && calls[i] == t
  }

  lemma TimesCount(calls: seq<Time>, s: set<int>, m: nat)
    requires forall i <- s :: 0 <= i < |calls|
    requires forall t: Time :: |AtTime(calls, t)| <= m
    ensures |s| <= m * |TimesOf(calls, s)|
  {
    var when := (i: int) => TimeOf(calls, i);
    forall t | t in Sets.Image(s, when)
      ensures |Sets.Fibre(s, when, t)| <= m
    {
      Sets.Smaller(Sets.Fibre(s, when, t), AtTime(calls, t));
    }
    Sets.FibreBound(s, when, m);
    assert TimesOf(calls, s) == Sets.Image(s, when);
  }

  lemma TimesAtMost(m: nat, x: nat, y: nat)
    requires x <= y
    ensures m * x <= m * y
  {
  }

  /** A client that sends at most m requests at any one time has at most m times the limit
      allowed in any window. */
  lemma RequestBoundPerTime(calls: seq<Time>, limit: nat, window: Time, x: Time, m: nat)
    requires History(calls) && window > 0
    requires forall t: Time :: |AtTime(calls, t)| <= m
    ensures |AllowedCalls(calls, limit, window, x)| <= m * limit
  {
    TimesCount(calls, AllowedCalls(calls, limit, window, x), m);
    WindowBound(calls, limit, window, x);
    TimesAtMost(m, |AllowedTimes(calls, limit, window, x)|, limit);
  }

  /** The documented limit on requests, for a client whose requests have distinct times. */
  lemma RequestBound(calls: seq<Time>, limit: nat, window: Time, x: Time)
    requires History(calls) && window > 0
    requires forall i, j | 0 <= i < j < |calls| :: calls[i] != calls[j]
    ensures |AllowedCalls(calls, limit, window, x)| <= limit
  {
    forall t: Time
      ensures |AtTime(calls, t)| <= 1
    {
      if i :| i in AtTime(calls, t) {
        Sets.Contained(AtTime(calls, t), {i});
        Sets.Smaller(AtTime(calls, t), {i});
      }
    }
    RequestBoundPerTime(calls, limit, window, x, 1);
  }

  /** No window holds more allowed requests than the limit, for any limit and any window. */
  ghost predicate LimitsRequests(calls: seq<Time>) {
    forall limit: nat, window: Time, x: Time | window > 0 :: |AllowedCalls(calls, limit, window, x)| <= limit
  }

  lemma FirstAtItsTime(calls: seq<Time>, i: nat)
    requires History(calls) && i < |calls|
    ensures AllowedIn(calls, 1, 1, calls[i], i)
  {
    AnswersFromHistory(calls, 1, 1, i);
    assert calls[i] == calls[..i + 1][i];
    Sets.Contained(Recent(calls[..i + 1], 1, calls[i]), {calls[i]});
    Sets.Smaller(Recent(calls[..i + 1], 1, calls[i]), {calls[i]});
  }

  /** The limit on requests holds, whatever it is, exactly for clients that never send two
      requests at one time. */
  lemma RequestsLimitedExactly(calls: seq<Time>)
    requires History(calls)
    ensures LimitsRequests(calls) <==> forall i, j | 0 <= i < j < |calls| :: calls[i] != calls[j]
  {
    if i, j :| 0 <= i < j < |calls| && calls[i] == calls[j] {
      FirstAtItsTime(calls, i);
      FirstAtItsTime(calls, j);
      var pair: set<int> := {i, j};
      Sets.Smaller(pair, AllowedCalls(calls, 1, 1, calls[i]));
      assert !LimitsRequests(calls);
    } else {
      forall limit: nat, window: Time, x: Time | window > 0
        ensures |AllowedCalls(calls, limit, window, x)| <= limit
      {
        RequestBound(calls, limit, window, x);
      }
    }
  }

  /** The set holds times, not requests: any number of requests at one instant are all allowed. */
  lemma OneInstantCountsOnce(calls: seq<Time>, limit: nat, window: Time, i: nat)
    requires History(calls) && i < |calls| && window > 0 && limit >= 1
    requires forall k | 0 <= k < |calls| :: calls[k] == calls[0]
    ensures AnswerTo(calls, limit, window, i) == Result(true, limit - 1, 0)
  {
    AnswersFromHistory(calls, limit, window, i);
    assert calls[..i + 1][0] == calls[i];
    assert Recent(calls[..i + 1], window, calls[i]) == {calls[i]};
  }

  /** A client that stays silent for the announced time is allowed again. */
  lemma SilenceIsForgiven(calls: seq<Time>, limit: nat, window: Time, i: nat)
    requires History(calls) && i + 1 < |calls| && window > 0 && limit >= 1
    requires !AnswerTo(calls, limit, window, i).allowed
    requires calls[i] + AnswerTo(calls, limit, window, i).retryAfter <= calls[i + 1]
    ensures AnswerTo(calls, limit, window, i + 1) == Result(true, limit - 1, 0)
  {
    AnswersFromHistory(calls, limit, window, i + 1);
    var prefix := calls[..i + 2];
    assert prefix[i + 1] == calls[i + 1];
    assert Recent(prefix, window, calls[i + 1]) == {calls[i + 1]};
  }

  lemma {:induction false} GapsAddUp(calls: seq<Time>, gap: Time, i: nat, k: nat)
    requires k <= i < |calls|
    requires forall j | 0 <= j < |calls| - 1 :: 0 < calls[j + 1] - calls[j] <= gap
    ensures k <= calls[i] - calls[i - k] <= k * gap
  {
    if k > 0 {
      GapsAddUp(calls, gap, i, k - 1);
      var j := i - k;
      assert 0 < calls[j + 1] - calls[j] <= gap;
      assert k * gap == (k - 1) * gap + gap;
    }
  }

  ghost function LastTimes(calls: seq<Time>, i: nat, k: nat): set<Time>
    requires k <= i < |calls|
  {
    if k == 0 then {calls[i]} else LastTimes(calls, i, k - 1) + {calls[i - k]}
  }

  lemma {:induction false} LastTimesCount(calls: seq<Time>, gap: Time, i: nat, k: nat)
    requires k <= i < |calls|
    requires forall j | 0 <= j < |calls| - 1 :: 0 < calls[j + 1] - calls[j] <= gap
    ensures |LastTimes(calls, i, k)| == k + 1
    ensures forall t <- LastTimes(calls, i, k) ::
              t in calls[..i + 1] && calls[i] - k * gap <= t <= calls[i] && calls[i - k] <= t
  {
    if k > 0 {
      LastTimesCount(calls, gap, i, k - 1);
      GapsAddUp(calls, gap, i, k);
      var j := i - k;
      assert calls[j] < calls[j + 1] && calls[j] == calls[..i + 1][j];
      assert k * gap == (k - 1) * gap + gap;
    }
  }

  /** Rejected requests count: a client that keeps asking more often than the limit allows
      is not served again, however long it goes on. */
  lemma PollingStaysBlocked(calls: seq<Time>, limit: nat, window: Time, gap: Time, i: nat)
    requires History(calls) && limit <= i < |calls| && window > 0 && limit * gap < window
    requires forall j | 0 <= j < |calls| - 1 :: 0 < calls[j + 1] - calls[j] <= gap
    ensures AnswerTo(calls, limit, window, i) == Result(false, 0, window)
  {
    AnswersFromHistory(calls, limit, window, i);
    LastTimesCount(calls, gap, i, limit);
    var times, recent := LastTimes(calls, i, limit), Recent(calls[..i + 1], window, calls[i]);
    assert forall t <- times :: t in recent;
    Sets.Smaller(times, recent);
  }
}
