/**
  Request windows of the catalog API. The in-memory form counts without bound
  and finds the delay with a remainder; the SQL form counts up to a cap, finds
  the delay with a ceiling, and keeps the id of the one audit per window.
*/
module CatalogRateLimit {
  import opened Wrappers

  const COUNT_CAP: nat := 1000000

  datatype Caller = Caller(tenant: string, principal: string, operation: string)

  datatype Request = Request(
    caller: Caller, limit: int, windowSeconds: int, epochMs: int, blockedAuditId: string)

  datatype Decision = Decision(allowed: bool, retryAfterSeconds: int, auditId: Option<string>, shouldAudit: bool)

  datatype Row = Row(count: nat, blockedAuditId: Option<string>)

  /** Seconds since the epoch, with their fraction. */
  function Seconds(epochMs: int): real { epochMs as real / 1000.0 }

  /** The remainder of the language, for a dividend that is not negative. */
  function Remainder(x: real, divisor: int): real
    requires 0 < divisor
  {
    x - (divisor * (x / divisor as real).Floor) as real
  }

  function Ceiling(x: real): int { -(-x).Floor }

  function Max(a: int, b: int): int { if a < b then b else a }

  function Bucket(r: Request): int
    requires 0 < r.windowSeconds
  {
    (r.epochMs as real / (r.windowSeconds * 1000) as real).Floor
  }

  function MemoryRetry(r: Request): int
    requires 0 < r.windowSeconds
  {
    Max(1, r.windowSeconds - Remainder(Seconds(r.epochMs), r.windowSeconds).Floor)
  }

  function WindowStart(r: Request): int
    requires 0 < r.windowSeconds
  {
    (Seconds(r.epochMs) / r.windowSeconds as real).Floor * r.windowSeconds
  }

  function SqlRetry(r: Request): int
    requires 0 < r.windowSeconds
  {
    Max(1, Ceiling((WindowStart(r) + r.windowSeconds) as real - Seconds(r.epochMs)))
  }

  class InMemoryRateLimits {
    var counts: map<(Caller, int), nat>

    constructor ()
      ensures counts == map[]
    {
      counts := map[];
    }

    method ConsumeRateLimit(r: Request) returns (d: Decision)
      requires 0 < r.windowSeconds
      modifies this
      ensures var n := CountBefore(old(counts), r) + 1;
        counts == old(counts)[(r.caller, Bucket(r)) := n] && d == MemoryDecision(r, n)
      ensures d.allowed <==> counts[(r.caller, Bucket(r))] <= r.limit
      ensures d.auditId == if d.allowed then None else Some(r.blockedAuditId)
      ensures d.shouldAudit <==> counts[(r.caller, Bucket(r))] == r.limit + 1
    {
      var key := (r.caller, Bucket(r));
      var count := (if key in counts then counts[key] else 0) + 1;
      counts := counts[key := count];
      if count <= r.limit {
        return Decision(true, MemoryRetry(r), None, false);
      }
      d := Decision(false, MemoryRetry(r), Some(r.blockedAuditId), count == r.limit + 1);
    }
  }

  class SqlRateLimits {
    var rows: map<(Caller, int), Row>

    constructor ()
      ensures rows == map[]
    {
      rows := map[];
    }

    method ConsumeRateLimit(r: Request) returns (d: Decision)
      requires 0 < r.windowSeconds
      modifies this
      ensures var row := NextRow(RowBefore(old(rows), r), r);
        rows == old(rows)[(r.caller, WindowStart(r)) := row] && d == SqlDecision(r, row)
      ensures var row := rows[(r.caller, WindowStart(r))];
        && row.count <= COUNT_CAP
        && (d.allowed <==> row.count <= r.limit)
        && d.auditId == row.blockedAuditId
        && (d.shouldAudit <==> row.blockedAuditId == Some(r.blockedAuditId))
    {
      var key := (r.caller, WindowStart(r));
      var row := Row(1, None);
      if key in rows {
        var stored := rows[key];
        row := Row(
          if stored.count + 1 < COUNT_CAP then stored.count + 1 else COUNT_CAP,
          if stored.count + 1 == r.limit + 1 then Some(r.blockedAuditId) else stored.blockedAuditId);
      }
      rows := rows[key := row];
      d := Decision(row.count <= r.limit, SqlRetry(r), row.blockedAuditId, row.blockedAuditId == Some(r.blockedAuditId));
    }
  }

  function CountBefore(counts: map<(Caller, int), nat>, r: Request): nat
    requires 0 < r.windowSeconds
  {
    if (r.caller, Bucket(r)) in counts then counts[(r.caller, Bucket(r))] else 0
  }

  function RowBefore(rows: map<(Caller, int), Row>, r: Request): Option<Row>
    requires 0 < r.windowSeconds
  {
    if (r.caller, WindowStart(r)) in rows then Some(rows[(r.caller, WindowStart(r))]) else None
  }

  /** The answer to the `n`-th request of a window. */
  function MemoryDecision(r: Request, n: nat): Decision
    requires 0 < r.windowSeconds
  {
    if n <= r.limit then Decision(true, MemoryRetry(r), None, false)
    else Decision(false, MemoryRetry(r), Some(r.blockedAuditId), n == r.limit + 1)
  }

  function NextRow(stored: Option<Row>, r: Request): Row {
    if stored.None? then Row(1, None)
    else
      Row(
        if stored.value.count + 1 < COUNT_CAP then stored.value.count + 1 else COUNT_CAP,
        if stored.value.count == r.limit then Some(r.blockedAuditId) else stored.value.blockedAuditId)
  }

  function SqlDecision(r: Request, row: Row): Decision
    requires 0 < r.windowSeconds
  {
    Decision(row.count <= r.limit, SqlRetry(r), row.blockedAuditId, row.blockedAuditId == Some(r.blockedAuditId))
  }

  // ---- delays -----------------------------------------------------------------------------------------------------

  lemma FloorIs(x: real, n: int)
    requires n as real <= x < (n + 1) as real
    ensures x.Floor == n
  {
  }

  lemma ScaledOrder(a: real, b: real, d: real)
    requires 0.0 < d
    ensures a <= b <==> a * d <= b * d
  {
    assert (b - a) * d == b * d - a * d;
    assert 0.0 <= b - a <==> 0.0 <= (b - a) * d;
  }

  /** The floor of a quotient, from the bounds of its dividend. */
  lemma QuotientFloor(x: real, d: real, n: int)
    requires 0.0 < d && n as real * d <= x < (n + 1) as real * d
    ensures (x / d).Floor == n
  {
    var q := x / d;
    assert q * d == x;
    ScaledOrder(n as real, q, d);
    ScaledOrder((n + 1) as real, q, d);
    FloorIs(q, n);
  }

  /** Window number, second within the window and millisecond within the second of a request time. */
  lemma TimeParts(r: Request) returns (window: int, second: int, ms: int)
    requires 0 < r.windowSeconds
    ensures r.epochMs == (window * r.windowSeconds + second) * 1000 + ms
    ensures 0 <= second < r.windowSeconds && 0 <= ms < 1000
    ensures Bucket(r) == window && WindowStart(r) == window * r.windowSeconds
    ensures Seconds(r.epochMs) == (window * r.windowSeconds + second) as real + ms as real / 1000.0
  {
    var w := r.windowSeconds;
    var whole := r.epochMs / 1000;
    ms := r.epochMs % 1000;
    window, second := whole / w, whole % w;
    assert whole == window * w + second;
    var s := Seconds(r.epochMs);
    assert s == whole as real + ms as real / 1000.0;
    assert (window * w) as real == window as real * w as real;
    assert ((window + 1) * w) as real == (window + 1) as real * w as real;
    assert (window + 1) * w == window * w + w;
    QuotientFloor(s, w as real, window);
    BucketFloor(r, window, second, ms);
  }

  lemma BucketFloor(r: Request, window: int, second: int, ms: int)
    requires 0 < r.windowSeconds && 0 <= second < r.windowSeconds && 0 <= ms < 1000
    requires r.epochMs == (window * r.windowSeconds + second) * 1000 + ms
    ensures Bucket(r) == window
  {
    var length := r.windowSeconds * 1000;
    assert r.epochMs == window * length + second * 1000 + ms;
    assert (window + 1) * length == window * length + length;
    assert (window * length) as real == window as real * length as real;
    assert ((window + 1) * length) as real == (window + 1) as real * length as real;
    QuotientFloor(r.epochMs as real, length as real, window);
  }

  /** Two requests share a window in one form exactly when they do in the other. */
  lemma WindowsAgree(r: Request, s: Request)
    requires 0 < r.windowSeconds == s.windowSeconds
    ensures Bucket(r) == Bucket(s) <==> WindowStart(r) == WindowStart(s)
  {
    var w := r.windowSeconds;
    var a, _, _ := TimeParts(r);
    var b, _, _ := TimeParts(s);
    DistinctStarts(a, b, w);
  }

  /**
    Both formulas give the same delay; it is between one second and a window, and
    waiting it out lands in the first second of the next window.
  */
  lemma DelaysAgree(r: Request)
    requires 0 < r.windowSeconds
    ensures MemoryRetry(r) == SqlRetry(r)
    ensures 1 <= SqlRetry(r) <= r.windowSeconds
    ensures var next := (WindowStart(r) + r.windowSeconds) * 1000;
      next <= r.epochMs + SqlRetry(r) * 1000 < next + 1000
  {
    var window, second, ms := TimeParts(r);
    MemoryDelay(r, window, second, ms);
    SqlDelay(r, window, second, ms);
  }

  lemma MemoryDelay(r: Request, window: int, second: int, ms: int)
    requires 0 < r.windowSeconds && 0 <= second < r.windowSeconds && 0 <= ms < 1000
    requires WindowStart(r) == window * r.windowSeconds
    requires Seconds(r.epochMs) == (window * r.windowSeconds + second) as real + ms as real / 1000.0
    ensures MemoryRetry(r) == r.windowSeconds - second
  {
    var w, s := r.windowSeconds, Seconds(r.epochMs);
    assert w * (s / w as real).Floor == window * w;
    FloorIs(Remainder(s, w), second);
  }

  lemma SqlDelay(r: Request, window: int, second: int, ms: int)
    requires 0 < r.windowSeconds && 0 <= second < r.windowSeconds && 0 <= ms < 1000
    requires WindowStart(r) == window * r.windowSeconds
    requires Seconds(r.epochMs) == (window * r.windowSeconds + second) as real + ms as real / 1000.0
    ensures SqlRetry(r) == r.windowSeconds - second
  {
    FloorIs(-((WindowStart(r) + r.windowSeconds) as real - Seconds(r.epochMs)), second - r.windowSeconds);
  }

  // ---- counts -----------------------------------------------------------------------------------------------------

  /** The row after the requests of one window, in order. */
  function RowAfter(requests: seq<Request>): Option<Row> {
    if requests == [] then None else Some(NextRow(RowAfter(requests[..|requests| - 1]), requests[|requests| - 1]))
  }

  /** Requests under one limit and one window length, with an audit id of their own each. */
  predicate OnePolicy(requests: seq<Request>, limit: int, windowSeconds: int) {
    && 0 < windowSeconds
    && (forall i :: 0 <= i < |requests| ==> requests[i].limit == limit && requests[i].windowSeconds == windowSeconds)
    && forall i, j :: 0 <= i < j < |requests| ==> requests[i].blockedAuditId != requests[j].blockedAuditId
  }

  predicate SameDecision(memory: Decision, sql: Decision) {
    && memory.allowed == sql.allowed
    && memory.retryAfterSeconds == sql.retryAfterSeconds
    && memory.shouldAudit == sql.shouldAudit
  }

  /** A limit for which the capped count decides as the true one; under a negative one every request is refused. */
  predicate SoundLimit(limit: int) {
    limit < 0 || 1 <= limit < COUNT_CAP
  }

  /** The stored row: the capped count, and the audit id of the request just over the limit. */
  lemma {:induction false} RowFacts(requests: seq<Request>, limit: int, windowSeconds: int)
    requires OnePolicy(requests, limit, windowSeconds) && requests != [] && SoundLimit(limit)
    ensures RowAfter(requests) == Some(Row(
      if |requests| < COUNT_CAP then |requests| else COUNT_CAP,
      if 0 <= limit < |requests| then Some(requests[limit].blockedAuditId) else None))
  {
    var before := requests[..|requests| - 1];
    if before != [] {
      assert OnePolicy(before, limit, windowSeconds);
      RowFacts(before, limit, windowSeconds);
    }
  }

  /** On the last of any requests of a window both forms allow, delay and audit alike. */
  lemma DecisionsAgree(requests: seq<Request>, limit: int, windowSeconds: int)
    requires OnePolicy(requests, limit, windowSeconds) && requests != [] && SoundLimit(limit)
    ensures var last := requests[|requests| - 1];
      SameDecision(MemoryDecision(last, |requests|), SqlDecision(last, RowAfter(requests).value))
  {
    RowFacts(requests, limit, windowSeconds);
    DelaysAgree(requests[|requests| - 1]);
  }

  /** Exactly one request of a window asks for an audit when the limit is passed, none otherwise. */
  lemma OneAuditPerWindow(requests: seq<Request>, limit: int, windowSeconds: int, n: nat)
    requires OnePolicy(requests, limit, windowSeconds) && SoundLimit(limit) && n < |requests|
    ensures SqlDecision(requests[n], RowAfter(requests[..n + 1]).value).shouldAudit <==> n == limit
  {
    assert OnePolicy(requests[..n + 1], limit, windowSeconds);
    RowFacts(requests[..n + 1], limit, windowSeconds);
  }

  /** `n` requests of one window with audit ids of their own. */
  function Sample(limit: int, windowSeconds: int, n: nat): (requests: seq<Request>)
    ensures |requests| == n
  {
    seq(n, i requires 0 <= i => Request(Caller("t", "p", "o"), limit, windowSeconds, 0, seq(i, _ => 'a')))
  }

  lemma SampleIsOnePolicy(limit: int, windowSeconds: int, n: nat)
    requires 0 < windowSeconds
    ensures OnePolicy(Sample(limit, windowSeconds, n), limit, windowSeconds)
  {
    var requests := Sample(limit, windowSeconds, n);
    forall i, j | 0 <= i < j < n
      ensures requests[i].blockedAuditId != requests[j].blockedAuditId
    {
      assert |requests[i].blockedAuditId| == i && |requests[j].blockedAuditId| == j;
    }
  }

  lemma {:induction false} CountIsCapped(requests: seq<Request>)
    requires requests != []
    ensures RowAfter(requests).value.count == if |requests| < COUNT_CAP then |requests| else COUNT_CAP
  {
    if |requests| > 1 {
      CountIsCapped(requests[..|requests| - 1]);
    }
  }

  /** The two forms decide alike on every window exactly for sound limits. */
  lemma DecisionsAgreeIff(limit: int, windowSeconds: int)
    requires 0 < windowSeconds
    ensures (forall requests: seq<Request> :: requests != [] && OnePolicy(requests, limit, windowSeconds) ==>
               SameDecision(MemoryDecision(requests[|requests| - 1], |requests|),
                            SqlDecision(requests[|requests| - 1], RowAfter(requests).value)))
       <==> SoundLimit(limit)
  {
    if SoundLimit(limit) {
      forall requests: seq<Request> | requests != [] && OnePolicy(requests, limit, windowSeconds)
        ensures SameDecision(MemoryDecision(requests[|requests| - 1], |requests|),
                             SqlDecision(requests[|requests| - 1], RowAfter(requests).value))
      {
        DecisionsAgree(requests, limit, windowSeconds);
      }
    } else {
      var requests := Sample(limit, windowSeconds, limit + 1);
      SampleIsOnePolicy(limit, windowSeconds, limit + 1);
      CountIsCapped(requests);
      var last := requests[limit];
      assert limit == 0 ==> RowAfter(requests).value == Row(1, None) by {
        assert limit == 0 ==> requests[..0] == [];
      }
      assert !SameDecision(MemoryDecision(last, limit + 1), SqlDecision(last, RowAfter(requests).value));
    }
  }

  // ---- whole runs -------------------------------------------------------------------------------------------------

  predicate Windowed(requests: seq<Request>, windowSeconds: int) {
    0 < windowSeconds && forall i :: 0 <= i < |requests| ==> requests[i].windowSeconds == windowSeconds
  }

  function MemoryRun(counts: map<(Caller, int), nat>, requests: seq<Request>, windowSeconds: int): seq<Decision>
    requires Windowed(requests, windowSeconds)
    decreases requests
  {
    if requests == [] then []
    else
      var r, n := requests[0], CountBefore(counts, requests[0]) + 1;
      [MemoryDecision(r, n)] + MemoryRun(counts[(r.caller, Bucket(r)) := n], requests[1..], windowSeconds)
  }

  function SqlRun(rows: map<(Caller, int), Row>, requests: seq<Request>, windowSeconds: int): seq<Decision>
    requires Windowed(requests, windowSeconds)
    decreases requests
  {
    if requests == [] then []
    else
      var r, row := requests[0], NextRow(RowBefore(rows, requests[0]), requests[0]);
      [SqlDecision(r, row)] + SqlRun(rows[(r.caller, WindowStart(r)) := row], requests[1..], windowSeconds)
  }

  /** The row of a window stands for its true count: capped, and marked with a used audit id once over the limit. */
  predicate RowTracks(row: Row, n: nat, limit: int, used: set<string>) {
    && 1 <= n
    && row.count == (if n < COUNT_CAP then n else COUNT_CAP)
    && if limit < 0 || n <= limit then row.blockedAuditId == None
       else row.blockedAuditId.Some? && row.blockedAuditId.value in used
  }

  predicate WindowTracks(
    counts: map<(Caller, int), nat>, rows: map<(Caller, int), Row>, windowSeconds: int, limitOf: Caller -> int,
    used: set<string>, caller: Caller, window: int)
  {
    var start := window * windowSeconds;
    && ((caller, window) in counts <==> (caller, start) in rows)
    && ((caller, window) in counts ==>
          RowTracks(rows[(caller, start)], counts[(caller, window)], limitOf(caller), used))
  }

  ghost predicate Tracks(
    counts: map<(Caller, int), nat>, rows: map<(Caller, int), Row>, windowSeconds: int, limitOf: Caller -> int,
    used: set<string>)
  {
    forall caller, window :: WindowTracks(counts, rows, windowSeconds, limitOf, used, caller, window)
  }

  predicate Regular(r: Request, limitOf: Caller -> int) {
    r.limit == limitOf(r.caller) && SoundLimit(r.limit)
  }

  /** One more request of a window with a fresh audit id. */
  lemma RowStep(stored: Option<Row>, n: nat, r: Request, used: set<string>)
    requires 0 < r.windowSeconds && SoundLimit(r.limit) && r.blockedAuditId !in used
    requires if n == 0 then stored == None else stored.Some? && RowTracks(stored.value, n, r.limit, used)
    ensures RowTracks(NextRow(stored, r), n + 1, r.limit, used + {r.blockedAuditId})
    ensures SameDecision(MemoryDecision(r, n + 1), SqlDecision(r, NextRow(stored, r)))
  {
    DelaysAgree(r);
  }

  lemma StepKeepsTracks(
    counts: map<(Caller, int), nat>, rows: map<(Caller, int), Row>, limitOf: Caller -> int, used: set<string>, r: Request)
    requires 0 < r.windowSeconds && Regular(r, limitOf) && r.blockedAuditId !in used
    requires Tracks(counts, rows, r.windowSeconds, limitOf, used)
    ensures var n, row := CountBefore(counts, r) + 1, NextRow(RowBefore(rows, r), r);
      && SameDecision(MemoryDecision(r, n), SqlDecision(r, row))
      && Tracks(counts[(r.caller, Bucket(r)) := n], rows[(r.caller, WindowStart(r)) := row], r.windowSeconds, limitOf,
                used + {r.blockedAuditId})
  {
    var w := r.windowSeconds;
    var window, _, _ := TimeParts(r);
    var n, row := CountBefore(counts, r) + 1, NextRow(RowBefore(rows, r), r);
    hide NextRow, MemoryDecision, SqlDecision, SameDecision, RowTracks, Bucket, WindowStart;
    assert WindowTracks(counts, rows, w, limitOf, used, r.caller, window);
    TrackedCounts(counts, rows, limitOf, used, r);
    RowStep(RowBefore(rows, r), n - 1, r, used);
    var counts', rows' := counts[(r.caller, Bucket(r)) := n], rows[(r.caller, WindowStart(r)) := row];
    var used' := used + {r.blockedAuditId};
    forall caller, other
      ensures WindowTracks(counts', rows', w, limitOf, used', caller, other)
    {
      assert WindowTracks(counts, rows, w, limitOf, used, caller, other);
      DistinctStarts(other, window, w);
      UsedGrow(rows, counts, w, limitOf, used, r.blockedAuditId, caller, other);
    }
  }

  lemma DistinctStarts(a: int, b: int, w: int)
    requires 0 < w
    ensures a * w == b * w <==> a == b
  {
    assert (a - b) * w == a * w - b * w;
  }

  lemma UsedGrow(
    rows: map<(Caller, int), Row>, counts: map<(Caller, int), nat>, w: int, limitOf: Caller -> int, used: set<string>,
    id: string, caller: Caller, window: int)
    requires WindowTracks(counts, rows, w, limitOf, used, caller, window)
    ensures WindowTracks(counts, rows, w, limitOf, used + {id}, caller, window)
  {
  }

  lemma TrackedCounts(
    counts: map<(Caller, int), nat>, rows: map<(Caller, int), Row>, limitOf: Caller -> int, used: set<string>, r: Request)
    requires 0 < r.windowSeconds && WindowStart(r) == Bucket(r) * r.windowSeconds && r.limit == limitOf(r.caller)
    requires WindowTracks(counts, rows, r.windowSeconds, limitOf, used, r.caller, Bucket(r))
    ensures var n, stored := CountBefore(counts, r), RowBefore(rows, r);
      if n == 0 then stored == None else stored.Some? && RowTracks(stored.value, n, r.limit, used)
  {
  }

  /** Audit ids are drawn fresh: none was used before, and none is drawn twice. */
  predicate FreshIds(requests: seq<Request>, used: set<string>) {
    && (forall i :: 0 <= i < |requests| ==> requests[i].blockedAuditId !in used)
    && forall i, j :: 0 <= i < j < |requests| ==> requests[i].blockedAuditId != requests[j].blockedAuditId
  }

  lemma FreshTail(requests: seq<Request>, used: set<string>)
    requires requests != [] && FreshIds(requests, used)
    ensures requests[0].blockedAuditId !in used && FreshIds(requests[1..], used + {requests[0].blockedAuditId})
  {
  }

  /**
    Whatever callers ask, in whatever windows and order, the two stores allow,
    delay and audit alike at every request, for limits the cap does not reach.
  */
  lemma {:induction false} RunsDecideAlike(
    counts: map<(Caller, int), nat>, rows: map<(Caller, int), Row>, requests: seq<Request>, windowSeconds: int,
    limitOf: Caller -> int, used: set<string>)
    requires Windowed(requests, windowSeconds) && forall i :: 0 <= i < |requests| ==> Regular(requests[i], limitOf)
    requires Tracks(counts, rows, windowSeconds, limitOf, used) && FreshIds(requests, used)
    ensures var memory, sql := MemoryRun(counts, requests, windowSeconds), SqlRun(rows, requests, windowSeconds);
      |memory| == |sql| == |requests| && forall i :: 0 <= i < |requests| ==> SameDecision(memory[i], sql[i])
    decreases requests
  {
    if requests != [] {
      hide Tracks, NextRow, MemoryDecision, SqlDecision, SameDecision, CountBefore, RowBefore, Bucket, WindowStart,
        FreshIds, Regular;
      var r, rest := requests[0], requests[1..];
      FreshTail(requests, used);
      var n, row := CountBefore(counts, r) + 1, NextRow(RowBefore(rows, r), r);
      StepKeepsTracks(counts, rows, limitOf, used, r);
      RunsDecideAlike(
        counts[(r.caller, Bucket(r)) := n], rows[(r.caller, WindowStart(r)) := row], rest, windowSeconds, limitOf,
        used + {r.blockedAuditId});
    }
  }

  lemma {:induction false} RunsDecideAlikeFromEmpty(requests: seq<Request>, windowSeconds: int, limitOf: Caller -> int)
    requires Windowed(requests, windowSeconds) && forall i :: 0 <= i < |requests| ==> Regular(requests[i], limitOf)
    requires FreshIds(requests, {})
    ensures var memory, sql := MemoryRun(map[], requests, windowSeconds), SqlRun(map[], requests, windowSeconds);
      |memory| == |sql| == |requests| && forall i :: 0 <= i < |requests| ==> SameDecision(memory[i], sql[i])
  {
    hide MemoryRun, SqlRun, SameDecision, Regular;
    RunsDecideAlike(map[], map[], requests, windowSeconds, limitOf, {});
  }

  // ---- what the answers mean --------------------------------------------------------------------------------------

  /**
    The audit ids of the answers. The in-memory form names the refused request's
    own; the SQL form names, to every request over the limit, that of the first.
    They agree up to and including that one.
  */
  lemma AuditIdsAgreeIff(requests: seq<Request>, limit: int, windowSeconds: int, n: nat)
    requires OnePolicy(requests, limit, windowSeconds) && SoundLimit(limit) && n < |requests|
    ensures var memory, sql :=
        MemoryDecision(requests[n], n + 1), SqlDecision(requests[n], RowAfter(requests[..n + 1]).value);
      && memory.auditId == (if n < limit then None else Some(requests[n].blockedAuditId))
      && sql.auditId == (if 0 <= limit <= n then Some(requests[limit].blockedAuditId) else None)
      && (memory.auditId == sql.auditId <==> n <= limit)
  {
    assert OnePolicy(requests[..n + 1], limit, windowSeconds);
    RowFacts(requests[..n + 1], limit, windowSeconds);
  }

  /** The window of a request, in whole numbers: its number, its start, and that the request lies in it. */
  lemma BucketIsQuotient(r: Request)
    requires 0 < r.windowSeconds
    ensures Bucket(r) == r.epochMs / (r.windowSeconds * 1000)
    ensures WindowStart(r) == Bucket(r) * r.windowSeconds
    ensures WindowStart(r) * 1000 <= r.epochMs < (WindowStart(r) + r.windowSeconds) * 1000
  {
    var window, second, ms := TimeParts(r);
    var length := r.windowSeconds * 1000;
    assert r.epochMs == window * length + (second * 1000 + ms);
    QuotientIs(r.epochMs, length, window, second * 1000 + ms);
  }

  lemma QuotientIs(x: int, d: int, q: int, rest: int)
    requires 0 <= rest < d && x == q * d + rest
    ensures x / d == q
  {
    var n := x / d;
    assert n * d <= x < n * d + d;
    if n < q {
      MultiplesAreApart(n, q, d);
    } else if q < n {
      MultiplesAreApart(q, n, d);
    }
  }

  lemma MultiplesAreApart(a: int, b: int, d: int)
    requires 0 < d && a < b
    ensures a * d + d <= b * d
  {
    var c := b - a - 1;
    assert 0 <= c * d;
    assert b == a + c + 1;
    assert (a + c + 1) * d == a * d + c * d + d;
  }

  /** The requests of the caller of `r` in the window of `r`. */
  function InItsWindow(requests: seq<Request>, r: Request): nat
    requires 0 < r.windowSeconds
  {
    if requests == [] then 0
    else
      var q, length := requests[0], r.windowSeconds * 1000;
      (if q.caller == r.caller && q.epochMs / length == r.epochMs / length then 1 else 0)
      + InItsWindow(requests[1..], r)
  }

  lemma {:induction false} AnswersCount(
    counts: map<(Caller, int), nat>, requests: seq<Request>, windowSeconds: int, i: nat)
    requires Windowed(requests, windowSeconds) && i < |requests|
    ensures |MemoryRun(counts, requests, windowSeconds)| == |requests|
    ensures MemoryRun(counts, requests, windowSeconds)[i]
         == MemoryDecision(requests[i], CountBefore(counts, requests[i]) + InItsWindow(requests[..i], requests[i]) + 1)
    decreases requests
  {
    hide MemoryDecision, Bucket;
    var r, n := requests[0], CountBefore(counts, requests[0]) + 1;
    var counts', rest := counts[(r.caller, Bucket(r)) := n], requests[1..];
    if rest != [] {
      AnswersCount(counts', rest, windowSeconds, if i == 0 then 0 else i - 1);
    }
    if 0 < i {
      assert rest[..i - 1] == requests[..i][1..];
      BucketIsQuotient(r);
      BucketIsQuotient(requests[i]);
    }
  }

  /**
    Over any run, a request is allowed exactly when fewer than its limit came
    before it from its caller in its window, and audited exactly when it is the
    first refused of a limit that is not negative.
  */
  lemma {:induction false} AllowedIffUnderLimit(requests: seq<Request>, windowSeconds: int, i: nat)
    requires Windowed(requests, windowSeconds) && i < |requests|
    ensures |MemoryRun(map[], requests, windowSeconds)| == |requests|
    ensures var d, n := MemoryRun(map[], requests, windowSeconds)[i], InItsWindow(requests[..i], requests[i]);
      && (d.allowed <==> n < requests[i].limit)
      && (d.shouldAudit <==> n == requests[i].limit)
      && (d.auditId == None <==> d.allowed)
  {
    AnswersCount(map[], requests, windowSeconds, i);
  }

  /** The SQL form too, under the limits for which it agrees. */
  lemma SqlAllowedIffUnderLimit(requests: seq<Request>, windowSeconds: int, limitOf: Caller -> int, i: nat)
    requires Windowed(requests, windowSeconds) && forall j :: 0 <= j < |requests| ==> Regular(requests[j], limitOf)
    requires FreshIds(requests, {}) && i < |requests|
    ensures |SqlRun(map[], requests, windowSeconds)| == |requests|
    ensures var d, n := SqlRun(map[], requests, windowSeconds)[i], InItsWindow(requests[..i], requests[i]);
      && (d.allowed <==> n < requests[i].limit)
      && (d.shouldAudit <==> n == requests[i].limit)
  {
    hide MemoryRun, SqlRun, InItsWindow, Regular, FreshIds;
    RunsDecideAlikeFromEmpty(requests, windowSeconds, limitOf);
    AllowedIffUnderLimit(requests, windowSeconds, i);
  }
}
