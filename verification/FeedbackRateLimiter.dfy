/**
  The in-memory limiter that guards procedure feedback: one counting bucket per
  key, opened by the first call after the previous bucket's reset time.
*/
module FeedbackRateLimiter {
  datatype Bucket = Bucket(count: nat, resetAt: int)

  datatype Call = Call(key: string, time: int)

  type Buckets = map<string, Bucket>

  class ProcedureFeedbackRateLimiter {
    const maxRequests: int
    const windowMs: int
    var buckets: Buckets

    constructor (maxRequests: int, windowMs: int)
      ensures this.maxRequests == maxRequests && this.windowMs == windowMs
      ensures buckets == map[]
    {
      this.maxRequests := maxRequests;
      this.windowMs := windowMs;
      buckets := map[];
    }

    /** One call at the clock reading `currentTime`. */
    method Consume(key: string, currentTime: int) returns (admitted: bool)
      modifies this`buckets
      ensures admitted == Admits(old(buckets), maxRequests, Call(key, currentTime))
      ensures buckets == After(old(buckets), maxRequests, windowMs, Call(key, currentTime))
      ensures key !in old(buckets) || old(buckets)[key].resetAt <= currentTime ==>
        admitted && buckets == old(buckets)[key := Bucket(1, currentTime + windowMs)]
      ensures key in old(buckets) && currentTime < old(buckets)[key].resetAt ==>
        var bucket := old(buckets)[key];
        && (admitted <==> bucket.count < maxRequests)
        && (admitted ==> buckets == old(buckets)[key := Bucket(bucket.count + 1, bucket.resetAt)])
        && (!admitted ==> buckets == old(buckets))
    {
      if key !in buckets || currentTime >= buckets[key].resetAt {
        buckets := buckets[key := Bucket(1, currentTime + windowMs)];
        return true;
      }
      if buckets[key].count >= maxRequests {
        return false;
      }
      buckets := buckets[key := buckets[key].(count := buckets[key].count + 1)];
      return true;
    }
  }

  predicate Opens(buckets: Buckets, call: Call) {
    call.key in buckets ==> buckets[call.key].resetAt <= call.time
  }

  predicate Admits(buckets: Buckets, maxRequests: int, call: Call) {
    Opens(buckets, call) || buckets[call.key].count < maxRequests
  }

  function After(buckets: Buckets, maxRequests: int, windowMs: int, call: Call): Buckets {
    if Opens(buckets, call) then buckets[call.key := Bucket(1, call.time + windowMs)]
    else if buckets[call.key].count < maxRequests then
      buckets[call.key := Bucket(buckets[call.key].count + 1, buckets[call.key].resetAt)]
    else buckets
  }

  /** The answers given to the calls for `key`, in order. */
  function Verdicts(buckets: Buckets, maxRequests: int, windowMs: int, calls: seq<Call>, key: string): seq<bool>
    decreases calls
  {
    if calls == [] then []
    else
      (if calls[0].key == key then [Admits(buckets, maxRequests, calls[0])] else [])
      + Verdicts(After(buckets, maxRequests, windowMs, calls[0]), maxRequests, windowMs, calls[1..], key)
  }

  /** How many calls for `key` are admitted at a time in the half-open interval of length `windowMs` from `from`. */
  function AdmittedWithin(
    buckets: Buckets, maxRequests: int, windowMs: int, calls: seq<Call>, key: string, from: int): nat
    decreases calls
  {
    if calls == [] then 0
    else
      (if calls[0].key == key && from <= calls[0].time < from + windowMs && Admits(buckets, maxRequests, calls[0])
       then 1 else 0)
      + AdmittedWithin(After(buckets, maxRequests, windowMs, calls[0]), maxRequests, windowMs, calls[1..], key, from)
  }

  /** The clock readings never go back. */
  predicate ClockOrdered(calls: seq<Call>) {
    forall i, j :: 0 <= i < j < |calls| ==> calls[i].time <= calls[j].time
  }

  function OnlyKey(calls: seq<Call>, key: string): seq<Call> {
    if calls == [] then []
    else (if calls[0].key == key then [calls[0]] else []) + OnlyKey(calls[1..], key)
  }

  function Max(a: int, b: int): int { if a < b then b else a }

  /** What can still be admitted in the interval, given the key's bucket. */
  function Room(buckets: Buckets, cap: int, windowMs: int, key: string, from: int): int {
    if key !in buckets || buckets[key].resetAt <= from then 2 * cap - 1
    else if buckets[key].resetAt < from + windowMs then 2 * cap - buckets[key].count
    else cap - buckets[key].count
  }

  lemma {:induction false} NothingAfterTheInterval(
    buckets: Buckets, maxRequests: int, windowMs: int, calls: seq<Call>, key: string, from: int)
    requires forall i :: 0 <= i < |calls| ==> from + windowMs <= calls[i].time
    ensures AdmittedWithin(buckets, maxRequests, windowMs, calls, key, from) == 0
    decreases calls
  {
    if calls != [] {
      var later := After(buckets, maxRequests, windowMs, calls[0]);
      NothingAfterTheInterval(later, maxRequests, windowMs, calls[1..], key, from);
    }
  }

  lemma {:induction false} AdmissionsFitTheRoom(
    buckets: Buckets, maxRequests: int, windowMs: int, calls: seq<Call>, key: string, from: int)
    requires 0 < windowMs && ClockOrdered(calls)
    requires key in buckets ==> 1 <= buckets[key].count <= Max(1, maxRequests)
    ensures AdmittedWithin(buckets, maxRequests, windowMs, calls, key, from)
         <= Room(buckets, Max(1, maxRequests), windowMs, key, from)
    decreases calls
  {
    if calls != [] {
      var later := After(buckets, maxRequests, windowMs, calls[0]);
      if from + windowMs <= calls[0].time {
        NothingAfterTheInterval(later, maxRequests, windowMs, calls[1..], key, from);
      } else {
        AdmissionsFitTheRoom(later, maxRequests, windowMs, calls[1..], key, from);
      }
    }
  }

  /**
    Whatever the calls and wherever the interval starts, one key gets at most
    `2 * maxRequests - 1` admissions in any `windowMs`: the fixed windows of the
    code are that far from a sliding one. A limit below one behaves as one.
  */
  lemma SlidingBound(maxRequests: int, windowMs: int, calls: seq<Call>, key: string, from: int)
    requires ClockOrdered(calls)
    ensures AdmittedWithin(map[], maxRequests, windowMs, calls, key, from) <= 2 * Max(1, maxRequests) - 1
  {
    if 0 < windowMs {
      AdmissionsFitTheRoom(map[], maxRequests, windowMs, calls, key, from);
    } else {
      EmptyInterval(map[], maxRequests, windowMs, calls, key, from);
    }
  }

  lemma {:induction false} EmptyInterval(
    buckets: Buckets, maxRequests: int, windowMs: int, calls: seq<Call>, key: string, from: int)
    requires windowMs <= 0
    ensures AdmittedWithin(buckets, maxRequests, windowMs, calls, key, from) == 0
    decreases calls
  {
    if calls != [] {
      EmptyInterval(After(buckets, maxRequests, windowMs, calls[0]), maxRequests, windowMs, calls[1..], key, from);
    }
  }

  function Repeat(call: Call, n: nat): seq<Call> {
    seq(n, _ => call)
  }

  lemma {:induction false} BurstIsAdmitted(
    buckets: Buckets, maxRequests: int, windowMs: int, call: Call, n: nat, rest: seq<Call>, from: int)
    requires call.key in buckets && call.time < buckets[call.key].resetAt
    requires buckets[call.key].count + n <= maxRequests
    requires from <= call.time < from + windowMs
    ensures var filled := buckets[call.key := Bucket(buckets[call.key].count + n, buckets[call.key].resetAt)];
      AdmittedWithin(buckets, maxRequests, windowMs, Repeat(call, n) + rest, call.key, from)
      == n + AdmittedWithin(filled, maxRequests, windowMs, rest, call.key, from)
    decreases n
  {
    var filled := buckets[call.key := Bucket(buckets[call.key].count + n, buckets[call.key].resetAt)];
    if n == 0 {
      assert Repeat(call, n) + rest == rest;
      assert filled == buckets;
    } else {
      var later := After(buckets, maxRequests, windowMs, call);
      assert (Repeat(call, n) + rest)[1..] == Repeat(call, n - 1) + rest;
      BurstIsAdmitted(later, maxRequests, windowMs, call, n - 1, rest, from);
      assert later[call.key := Bucket(later[call.key].count + (n - 1), later[call.key].resetAt)] == filled;
    }
  }

  /** One call, then `maxRequests - 1` just before the reset, then a full new bucket at the reset. */
  function WorstCase(maxRequests: nat, windowMs: int, key: string): seq<Call>
    requires 1 <= maxRequests
  {
    [Call(key, 0)] + (Repeat(Call(key, windowMs - 1), maxRequests - 1)
    + ([Call(key, windowMs)] + (Repeat(Call(key, windowMs), maxRequests - 1) + [])))
  }

  /** The bound is reached, so no smaller one holds. */
  lemma SlidingBoundIsTight(maxRequests: nat, windowMs: int, key: string)
    requires 1 <= maxRequests && 2 <= windowMs
    ensures ClockOrdered(WorstCase(maxRequests, windowMs, key))
    ensures AdmittedWithin(map[], maxRequests, windowMs, WorstCase(maxRequests, windowMs, key), key, windowMs - 1)
         == 2 * maxRequests - 1
  {
    WorstCaseIsOrdered(maxRequests, windowMs, key);
    var from := windowMs - 1;
    var third := Repeat(Call(key, windowMs), maxRequests - 1) + [];
    var second := [Call(key, windowMs)] + third;
    var started, full := map[][key := Bucket(1, windowMs)], map[][key := Bucket(maxRequests, windowMs)];
    var restarted := map[][key := Bucket(1, 2 * windowMs)];
    assert full == started[key := Bucket(maxRequests, windowMs)] && restarted == full[key := Bucket(1, 2 * windowMs)];
    hide AdmittedWithin, Repeat;
    NothingMoreAdmitted(restarted[key := Bucket(maxRequests, 2 * windowMs)], maxRequests, windowMs, key, from);
    OpeningCall(map[], maxRequests, windowMs, Call(key, 0), Repeat(Call(key, from), maxRequests - 1) + second, from);
    BurstIsAdmitted(started, maxRequests, windowMs, Call(key, from), maxRequests - 1, second, from);
    OpeningCall(full, maxRequests, windowMs, Call(key, windowMs), third, from);
    BurstIsAdmitted(restarted, maxRequests, windowMs, Call(key, windowMs), maxRequests - 1, [], from);
  }

  lemma WorstCaseIsOrdered(maxRequests: nat, windowMs: int, key: string)
    requires 1 <= maxRequests && 2 <= windowMs
    ensures ClockOrdered(WorstCase(maxRequests, windowMs, key))
  {
  }

  lemma NothingMoreAdmitted(buckets: Buckets, maxRequests: int, windowMs: int, key: string, from: int)
    ensures AdmittedWithin(buckets, maxRequests, windowMs, [], key, from) == 0
  {
  }

  /** A call that opens a bucket is admitted. */
  lemma OpeningCall(buckets: Buckets, maxRequests: int, windowMs: int, call: Call, rest: seq<Call>, from: int)
    requires Opens(buckets, call)
    ensures AdmittedWithin(buckets, maxRequests, windowMs, [call] + rest, call.key, from)
         == (if from <= call.time < from + windowMs then 1 else 0)
            + AdmittedWithin(
                buckets[call.key := Bucket(1, call.time + windowMs)], maxRequests, windowMs, rest, call.key, from)
  {
    assert ([call] + rest)[1..] == rest;
  }

  /** The answers for a key are those it would get if no other key ever called. */
  lemma {:induction false} KeysAreIndependent(
    buckets: Buckets, alone: Buckets, maxRequests: int, windowMs: int, calls: seq<Call>, key: string)
    requires key in buckets <==> key in alone
    requires key in buckets ==> buckets[key] == alone[key]
    ensures Verdicts(buckets, maxRequests, windowMs, calls, key)
         == Verdicts(alone, maxRequests, windowMs, OnlyKey(calls, key), key)
    decreases calls
  {
    if calls != [] {
      var later := After(buckets, maxRequests, windowMs, calls[0]);
      if calls[0].key == key {
        assert OnlyKey(calls, key)[1..] == OnlyKey(calls[1..], key);
        KeysAreIndependent(later, After(alone, maxRequests, windowMs, calls[0]), maxRequests, windowMs, calls[1..], key);
      } else {
        assert OnlyKey(calls, key) == OnlyKey(calls[1..], key);
        KeysAreIndependent(later, alone, maxRequests, windowMs, calls[1..], key);
      }
    }
  }

  // ---- one window -------------------------------------------------------------------------------------------------

  /** A call that is refused leaves every bucket as it was, and so prolongs none. */
  lemma RefusedCallsChangeNothing(buckets: Buckets, maxRequests: int, windowMs: int, call: Call)
    requires !Admits(buckets, maxRequests, call)
    ensures After(buckets, maxRequests, windowMs, call) == buckets
  {
  }

  function AfterAll(buckets: Buckets, maxRequests: int, windowMs: int, calls: seq<Call>): Buckets
    decreases calls
  {
    if calls == [] then buckets
    else AfterAll(After(buckets, maxRequests, windowMs, calls[0]), maxRequests, windowMs, calls[1..])
  }

  /** The first `n` answers are yes and the others no. */
  predicate FirstOnly(verdicts: seq<bool>, n: int) {
    forall i :: 0 <= i < |verdicts| ==> (verdicts[i] <==> i < n)
  }

  /** While a bucket lasts, its calls are admitted up to the limit and refused from there on. */
  lemma {:induction false} BucketVerdicts(
    buckets: Buckets, maxRequests: int, windowMs: int, calls: seq<Call>, key: string)
    requires key in buckets && forall i :: 0 <= i < |calls| ==> calls[i].time < buckets[key].resetAt
    ensures FirstOnly(Verdicts(buckets, maxRequests, windowMs, calls, key), maxRequests - buckets[key].count)
    ensures var later := AfterAll(buckets, maxRequests, windowMs, calls);
      key in later && later[key].resetAt == buckets[key].resetAt
    decreases calls
  {
    if calls != [] {
      var later := After(buckets, maxRequests, windowMs, calls[0]);
      BucketVerdicts(later, maxRequests, windowMs, calls[1..], key);
      var verdicts := Verdicts(later, maxRequests, windowMs, calls[1..], key);
      if calls[0].key == key {
        var all := [Admits(buckets, maxRequests, calls[0])] + verdicts;
        assert forall i :: 0 < i < |all| ==> all[i] == verdicts[i - 1];
      } else {
        assert [] + verdicts == verdicts;
      }
    }
  }

  /**
    From the call that opens a bucket to the end of its window, however many calls
    come, the first `maxRequests` for the key are admitted (one, if the limit is
    lower) and no other; the first call at the end of the window or later is
    admitted again.
  */
  lemma WindowVerdicts(
    buckets: Buckets, maxRequests: int, windowMs: int, opening: Call, calls: seq<Call>, next: int)
    requires Opens(buckets, opening) && forall i :: 0 <= i < |calls| ==> calls[i].time < opening.time + windowMs
    ensures var verdicts := Verdicts(buckets, maxRequests, windowMs, [opening] + calls, opening.key);
      && |verdicts| == 1 + |OnlyKey(calls, opening.key)|
      && FirstOnly(verdicts, Max(1, maxRequests))
    ensures opening.time + windowMs <= next ==>
      Admits(AfterAll(buckets, maxRequests, windowMs, [opening] + calls), maxRequests, Call(opening.key, next))
  {
    var started := After(buckets, maxRequests, windowMs, opening);
    assert ([opening] + calls)[1..] == calls;
    BucketVerdicts(started, maxRequests, windowMs, calls, opening.key);
    VerdictsPerCall(started, maxRequests, windowMs, calls, opening.key);
  }

  lemma {:induction false} VerdictsPerCall(
    buckets: Buckets, maxRequests: int, windowMs: int, calls: seq<Call>, key: string)
    ensures |Verdicts(buckets, maxRequests, windowMs, calls, key)| == |OnlyKey(calls, key)|
    decreases calls
  {
    if calls != [] {
      VerdictsPerCall(After(buckets, maxRequests, windowMs, calls[0]), maxRequests, windowMs, calls[1..], key);
    }
  }
}
