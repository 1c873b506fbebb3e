/** The fixed-window request limiter, in memory and as a PostgreSQL upsert. */
module RateLimit {
  import opened Wrappers

  /** One counter: when its window opened and how many requests it has seen. */
  datatype Bucket = Bucket(startedAt: int, count: nat)

  /** The in-memory rule: a missing or elapsed window is replaced, then the request is counted. */
  function Consume(bucket: Option<Bucket>, now: int, windowMs: int): Bucket {
    var open := if bucket.None? || now - bucket.value.startedAt >= windowMs then Bucket(now, 0) else bucket.value;
    open.(count := open.count + 1)
  }

  /** The counter of one key after the requests at the given instants. */
  function After(times: seq<int>, windowMs: int): Option<Bucket> {
    if times == [] then None
    else Some(Consume(After(times[..|times| - 1], windowMs), times[|times| - 1], windowMs))
  }

  /** How many of the requests that fall in [from, from + windowMs) were allowed. */
  function Admitted(times: seq<int>, windowMs: int, limit: nat, from: int): nat {
    if times == [] then 0
    else
      var now := times[|times| - 1];
      Admitted(times[..|times| - 1], windowMs, limit, from)
      + if from <= now < from + windowMs && After(times, windowMs).value.count <= limit then 1 else 0
  }

  ghost predicate Chronological(times: seq<int>) {
    forall i, j :: 0 <= i < j < |times| ==> times[i] <= times[j]
  }

  /** What the interval has admitted so far, by where the open window started. */
  lemma {:induction false} AdmittedByWindow(times: seq<int>, windowMs: int, limit: nat, from: int)
    requires Chronological(times) && times != [] && windowMs > 0 && limit > 0
    ensures var b := After(times, windowMs).value;
            var admitted := Admitted(times, windowMs, limit, from);
            && b.count > 0 && b.startedAt <= times[|times| - 1] < b.startedAt + windowMs
            && (times[|times| - 1] < from ==> admitted == 0)
            && (b.startedAt < from ==> admitted <= Min(b.count, limit) - 1)
            && (from <= b.startedAt < from + windowMs ==> admitted <= limit - 1 + Min(b.count, limit))
            && admitted <= 2 * limit - 1
  {
    var before := times[..|times| - 1];
    if before == [] {
      assert Admitted(before, windowMs, limit, from) == 0;
    } else {
      AdmittedByWindow(before, windowMs, limit, from);
    }
  }

  /** No interval as long as the window admits more than 2 * limit - 1 requests of one key. */
  lemma BurstBound(times: seq<int>, windowMs: int, limit: nat, from: int)
    requires Chronological(times) && windowMs > 0 && limit > 0
    ensures Admitted(times, windowMs, limit, from) <= 2 * limit - 1
  {
    if times != [] {
      AdmittedByWindow(times, windowMs, limit, from);
    }
  }

  function Repeat(time: int, n: nat): seq<int> {
    seq(n, _ => time)
  }

  /** One request opens the window, the rest of its quota lands on its last instant, the next quota right after. */
  function WorstCase(windowMs: int, limit: nat): seq<int>
    requires limit > 0
  {
    [0] + Repeat(windowMs - 1, limit - 1) + Repeat(windowMs, limit)
  }

  lemma {:induction false} FillFirstWindow(windowMs: int, limit: nat, n: nat)
    requires windowMs > 1 && n < limit
    ensures var times := [0] + Repeat(windowMs - 1, n);
            && After(times, windowMs) == Some(Bucket(0, n + 1))
            && Admitted(times, windowMs, limit, windowMs - 1) == n
  {
    var times := [0] + Repeat(windowMs - 1, n);
    if n == 0 {
      assert times[..0] == [];
    } else {
      FillFirstWindow(windowMs, limit, n - 1);
      assert times[..|times| - 1] == [0] + Repeat(windowMs - 1, n - 1);
    }
  }

  lemma {:induction false} FillSecondWindow(windowMs: int, limit: nat, n: nat)
    requires windowMs > 1 && 0 < n <= limit
    ensures var times := [0] + Repeat(windowMs - 1, limit - 1) + Repeat(windowMs, n);
            && After(times, windowMs) == Some(Bucket(windowMs, n))
            && Admitted(times, windowMs, limit, windowMs - 1) == limit - 1 + n
  {
    var first := [0] + Repeat(windowMs - 1, limit - 1);
    var times := first + Repeat(windowMs, n);
    assert times[|times| - 1] == windowMs;
    assert times[..|times| - 1] == first + Repeat(windowMs, n - 1);
    if n == 1 {
      FillFirstWindow(windowMs, limit, limit - 1);
      assert first + Repeat(windowMs, 0) == first;
    } else {
      FillSecondWindow(windowMs, limit, n - 1);
    }
  }

  /** The bound is met, for every limit and every window of at least two milliseconds. */
  lemma BurstBoundIsTight(windowMs: int, limit: nat)
    requires windowMs > 1 && limit > 0
    ensures Chronological(WorstCase(windowMs, limit))
    ensures Admitted(WorstCase(windowMs, limit), windowMs, limit, windowMs - 1) == 2 * limit - 1
  {
    FillSecondWindow(windowMs, limit, limit);
  }

  // The durable form: one row per key, updated by INSERT ... ON CONFLICT DO UPDATE.

  datatype Row = Row(windowStartedAt: int, requestCount: nat, expiresAt: int)

  const CLEANUP_GRACE_MS := 3_600_000

  function Upsert(row: Option<Row>, now: int, windowMs: int): Row {
    match row
    case None => Row(now, 1, now + windowMs)
    case Some(r) =>
      var elapsed := r.windowStartedAt <= now - windowMs;
      Row(if elapsed then now else r.windowStartedAt,
          if elapsed then 1 else r.requestCount + 1,
          if elapsed then now + windowMs else r.windowStartedAt + windowMs)
  }

  function Cleanup(row: Option<Row>, now: int): Option<Row> {
    if row.Some? && row.value.expiresAt < now - CLEANUP_GRACE_MS then None else row
  }

  /** The durable store also forgets rows that expired an hour ago. */
  datatype Event = Request(at: int) | CleanupAt(at: int)

  function MemoryDecisions(bucket: Option<Bucket>, trace: seq<Event>, windowMs: int, limit: nat): seq<bool>
    decreases |trace|
  {
    if trace == [] then []
    else if trace[0].CleanupAt? then MemoryDecisions(bucket, trace[1..], windowMs, limit)
    else
      var next := Consume(bucket, trace[0].at, windowMs);
      [next.count <= limit] + MemoryDecisions(Some(next), trace[1..], windowMs, limit)
  }

  function DurableDecisions(row: Option<Row>, trace: seq<Event>, windowMs: int, limit: nat): seq<bool>
    decreases |trace|
  {
    if trace == [] then []
    else if trace[0].CleanupAt? then DurableDecisions(Cleanup(row, trace[0].at), trace[1..], windowMs, limit)
    else
      var next := Upsert(row, trace[0].at, windowMs);
      [next.requestCount <= limit] + DurableDecisions(Some(next), trace[1..], windowMs, limit)
  }

  ghost predicate Ordered(trace: seq<Event>) {
    forall i, j :: 0 <= i < j < |trace| ==> trace[i].at <= trace[j].at
  }

  ghost predicate TraceInOrder(trace: seq<Event>, from: int) {
    Ordered(trace) && forall i :: 0 <= i < |trace| ==> from <= trace[i].at
  }

  /** Both stores hold the same window, or the durable one dropped a window that has already elapsed. */
  ghost predicate SameWindow(bucket: Option<Bucket>, row: Option<Row>, windowMs: int, now: int) {
    match row
    case None => bucket.None? || bucket.value.startedAt + windowMs <= now
    case Some(r) => bucket == Some(Bucket(r.windowStartedAt, r.requestCount))
                    && r.expiresAt == r.windowStartedAt + windowMs
  }

  lemma {:induction false} SameDecisionsFrom(bucket: Option<Bucket>, row: Option<Row>, trace: seq<Event>, windowMs: int,
                                             limit: nat, now: int)
    requires windowMs > 0 && SameWindow(bucket, row, windowMs, now) && TraceInOrder(trace, now)
    ensures MemoryDecisions(bucket, trace, windowMs, limit) == DurableDecisions(row, trace, windowMs, limit)
    decreases |trace|
  {
    if trace != [] {
      var at := trace[0].at;
      if trace[0].CleanupAt? {
        SameDecisionsFrom(bucket, Cleanup(row, at), trace[1..], windowMs, limit, at);
      } else {
        SameDecisionsFrom(Some(Consume(bucket, at, windowMs)), Some(Upsert(row, at, windowMs)), trace[1..], windowMs,
                          limit, at);
      }
    }
  }

  /** On every trace the two forms allow exactly the same requests, wherever cleanups fall. */
  lemma SameDecisions(trace: seq<Event>, windowMs: int, limit: nat)
    requires windowMs > 0 && Ordered(trace)
    ensures MemoryDecisions(None, trace, windowMs, limit) == DurableDecisions(None, trace, windowMs, limit)
  {
    if trace != [] {
      SameDecisionsFrom(None, None, trace, windowMs, limit, trace[0].at);
    }
  }

  // What the durable form admits.

  /** The instants of the requests in a trace. */
  function RequestTimes(trace: seq<Event>): seq<int> {
    if trace == [] then []
    else (if trace[0].Request? then [trace[0].at] else []) + RequestTimes(trace[1..])
  }

  /** How many requests in [from, from + windowMs) were answered with "allowed". */
  function AllowedWithin(times: seq<int>, decisions: seq<bool>, windowMs: int, from: int): nat
    requires |times| == |decisions|
  {
    if times == [] then 0
    else (if from <= times[0] < from + windowMs && decisions[0] then 1 else 0)
         + AllowedWithin(times[1..], decisions[1..], windowMs, from)
  }

  lemma AdmittedNext(done: seq<int>, now: int, windowMs: int, limit: nat, from: int)
    ensures var next := Consume(After(done, windowMs), now, windowMs);
            && After(done + [now], windowMs) == Some(next)
            && Admitted(done + [now], windowMs, limit, from)
               == Admitted(done, windowMs, limit, from)
                  + if from <= now < from + windowMs && next.count <= limit then 1 else 0
  {
    hide Consume;
    assert (done + [now])[..|done + [now]| - 1] == done;
  }

  lemma {:induction false} AdmittedAlong(done: seq<int>, trace: seq<Event>, windowMs: int, limit: nat, from: int)
    ensures var times, decisions := RequestTimes(trace), MemoryDecisions(After(done, windowMs), trace, windowMs, limit);
            && |times| == |decisions|
            && Admitted(done + times, windowMs, limit, from)
               == Admitted(done, windowMs, limit, from) + AllowedWithin(times, decisions, windowMs, from)
    decreases |trace|
  {
    hide After, Admitted, Consume;
    if trace == [] {
      assert done + [] == done;
    } else if trace[0].CleanupAt? {
      assert RequestTimes(trace) == RequestTimes(trace[1..]);
      AdmittedAlong(done, trace[1..], windowMs, limit, from);
    } else {
      var now, rest := trace[0].at, RequestTimes(trace[1..]);
      AdmittedNext(done, now, windowMs, limit, from);
      AdmittedAlong(done + [now], trace[1..], windowMs, limit, from);
      assert done + ([now] + rest) == done + [now] + rest;
    }
  }

  lemma LaterInOrder(now: int, rest: seq<int>)
    requires Chronological(rest) && forall t <- rest :: now <= t
    ensures Chronological([now] + rest)
  {
    assert forall i | 0 <= i < |rest| :: rest[i] in rest;
  }

  lemma TailInOrder(trace: seq<Event>, from: int)
    requires TraceInOrder(trace, from) && trace != []
    ensures TraceInOrder(trace[1..], trace[0].at) && from <= trace[0].at
  {
  }

  lemma {:induction false} TimesInOrder(trace: seq<Event>, from: int)
    requires TraceInOrder(trace, from)
    ensures Chronological(RequestTimes(trace)) && forall t <- RequestTimes(trace) :: from <= t
    decreases |trace|
  {
    if trace != [] {
      hide Chronological, TraceInOrder;
      var rest := RequestTimes(trace[1..]);
      TailInOrder(trace, from);
      TimesInOrder(trace[1..], trace[0].at);
      LaterInOrder(trace[0].at, rest);
      assert RequestTimes(trace) == if trace[0].Request? then [trace[0].at] + rest else rest;
    }
  }

  lemma OrderedTimes(trace: seq<Event>)
    requires Ordered(trace)
    ensures Chronological(RequestTimes(trace))
  {
    hide Chronological, RequestTimes;
    if trace == [] {
      TimesInOrder(trace, 0);
    } else {
      TimesInOrder(trace, trace[0].at);
    }
  }

  /** The durable limiter keeps the same bound on every trace, wherever its cleanups fall: no interval as long as the
      window admits more than 2 * limit - 1 requests of one key. */
  lemma DurableBurstBound(trace: seq<Event>, windowMs: int, limit: nat, from: int)
    requires windowMs > 0 && limit > 0 && Ordered(trace)
    ensures var decisions := DurableDecisions(None, trace, windowMs, limit);
            && |decisions| == |RequestTimes(trace)|
            && AllowedWithin(RequestTimes(trace), decisions, windowMs, from) <= 2 * limit - 1
  {
    hide AllowedWithin, DurableDecisions, MemoryDecisions, RequestTimes, Chronological, Ordered;
    SameDecisions(trace, windowMs, limit);
    AdmittedAlong([], trace, windowMs, limit, from);
    assert [] + RequestTimes(trace) == RequestTimes(trace);
    OrderedTimes(trace);
    BurstBound(RequestTimes(trace), windowMs, limit, from);
  }

  /** createAuthAbuseControls: a Map from key to counter. */
  class MemoryLimiter {
    const windowMs: int
    var buckets: map<string, Bucket>

    constructor (configuredWindowMs: int)
      ensures windowMs == Max(1000, configuredWindowMs) && buckets == map[]
    {
      windowMs := Max(1000, configuredWindowMs);
      buckets := map[];
    }

    ghost function BucketOf(key: string): Option<Bucket>
      reads this
    {
      if key in buckets then Some(buckets[key]) else None
    }

    method ConsumeKey(key: string, limit: nat, stamp: int) returns (allowed: bool, remaining: nat)
      modifies this
      ensures key == "" ==> allowed && remaining == limit && buckets == old(buckets)
      ensures key != "" ==>
                var next := Consume(old(BucketOf(key)), stamp, windowMs);
                && buckets == old(buckets)[key := next]
                && (allowed <==> next.count <= limit)
                && remaining == Max(0, limit - next.count)
      ensures key != "" ==>
                && key in buckets && buckets - {key} == old(buckets) - {key}
                && buckets[key] == if key in old(buckets) && stamp < old(buckets)[key].startedAt + windowMs
                                   then Bucket(old(buckets)[key].startedAt, old(buckets)[key].count + 1)
                                   else Bucket(stamp, 1)
    {
      if key == "" {
        return true, limit;
      }
      if key !in buckets || stamp - buckets[key].startedAt >= windowMs {
        buckets := buckets[key := Bucket(stamp, 0)];
      }
      var bucket := buckets[key].(count := buckets[key].count + 1);
      buckets := buckets[key := bucket];
      allowed := bucket.count <= limit;
      remaining := Max(0, limit - bucket.count);
    }
  }

  function RowIn(rows: map<(string, string), Row>, key: (string, string)): Option<Row> {
    if key in rows then Some(rows[key]) else None
  }

  /** A cleanup is invisible to a later request whose window length is the one the row was written with. */
  lemma CleanupIsInvisible(rows: map<(string, string), Row>, after: map<(string, string), Row>, key: (string, string),
                           now: int,
                           at: int, windowMs: int)
    requires after == map k | k in rows && Cleanup(Some(rows[k]), now).Some? :: rows[k]
    requires now <= at && 0 < windowMs && (key in rows ==> rows[key].expiresAt == rows[key].windowStartedAt + windowMs)
    ensures Upsert(RowIn(after, key), at, windowMs) == Upsert(RowIn(rows, key), at, windowMs)
  {
  }

  /** createDurableRateLimitStore: a table keyed by scope and key hash. */
  class DurableLimiter {
    var rows: map<(string, string), Row>

    constructor ()
      ensures rows == map[]
    {
      rows := map[];
    }

    method ConsumeRow(scope: string, keyHash: string, limit: nat, windowMs: int, now: int)
      returns (allowed: bool, count: nat, remaining: nat, retryAfterMs: int)
      modifies this
      ensures var next := Upsert(RowIn(old(rows), (scope, keyHash)), now, windowMs);
              && rows == old(rows)[(scope, keyHash) := next]
              && count == next.requestCount && (allowed <==> next.requestCount <= limit)
              && remaining == Max(0, limit - next.requestCount)
              && retryAfterMs == Max(1000, next.expiresAt - now)
      ensures var key := (scope, keyHash);
              && key in rows && rows - {key} == old(rows) - {key}
              && rows[key] == if key in old(rows) && now < old(rows)[key].windowStartedAt + windowMs
                              then Row(old(rows)[key].windowStartedAt, old(rows)[key].requestCount + 1,
                                       old(rows)[key].windowStartedAt + windowMs)
                              else Row(now, 1, now + windowMs)
    {
      var key := (scope, keyHash);
      if key in rows {
        var row := rows[key];
        if row.windowStartedAt <= now - windowMs {
          rows := rows[key := Row(now, 1, now + windowMs)];
        } else {
          rows := rows[key := Row(row.windowStartedAt, row.requestCount + 1, row.windowStartedAt + windowMs)];
        }
      } else {
        rows := rows[key := Row(now, 1, now + windowMs)];
      }
      count := rows[key].requestCount;
      allowed, remaining := count <= limit, Max(0, limit - count);
      retryAfterMs := Max(1000, rows[key].expiresAt - now);
    }

    /** What it drops could not have counted any more: every later request finds the window it would have found. */
    method CleanupExpired(now: int)
      modifies this
      ensures rows == map key | key in old(rows) && Cleanup(Some(old(rows)[key]), now).Some? :: old(rows)[key]
      ensures forall key <- old(rows) :: key in rows <==> now <= old(rows)[key].expiresAt + 3_600_000
      ensures forall key: (string, string), at: int, windowMs: int |
                now <= at && 0 < windowMs
                && (key in old(rows) ==> old(rows)[key].expiresAt == old(rows)[key].windowStartedAt + windowMs) ::
                Upsert(RowIn(rows, key), at, windowMs) == Upsert(RowIn(old(rows), key), at, windowMs)
    {
      ghost var before := rows;
      var todo := rows.Keys;
      while todo != {}
        invariant todo <= before.Keys
        invariant rows == map key | key in before && (key in todo || Cleanup(Some(before[key]), now).Some?) ::
                    before[key]
        decreases |todo|
      {
        var key :| key in todo;
        todo := todo - {key};
        if rows[key].expiresAt < now - CLEANUP_GRACE_MS {
          rows := rows - {key};
        }
      }
      forall key: (string, string), at: int, windowMs: int |
        now <= at && 0 < windowMs && (key in before ==> before[key].expiresAt == before[key].windowStartedAt + windowMs)
        ensures Upsert(RowIn(rows, key), at, windowMs) == Upsert(RowIn(before, key), at, windowMs)
      {
        CleanupIsInvisible(before, rows, key, now, at, windowMs);
      }
    }
  }
}
