/** The fixed-window rate limiter: a process-wide map from a key to the number
    of calls admitted in the current window and the instant the window ends. */
module RateLimit {
  import opened Common

  datatype RateEntry = RateEntry(count: int, resetAt: int)

  /** What one call decides and the entry it leaves for its key. */
  datatype Decision = Decision(allowed: bool, entry: RateEntry)

  /** The decision for one call at `now`, given the key's entry (if any). */
  function Decide(e: Option<RateEntry>, now: int, limit: int, windowMs: int): (d: Decision)
    ensures e.None? || e.value.resetAt <= now ==> d == Decision(true, RateEntry(1, now + windowMs))
    ensures e.Some? && now < e.value.resetAt ==> d.entry.resetAt == e.value.resetAt
    ensures e.Some? && now < e.value.resetAt ==>
              d.entry.count == if d.allowed then e.value.count + 1 else e.value.count
    ensures e.Some? && now < e.value.resetAt ==> (d.allowed <==> e.value.count < limit)
  {
    if e.None? || e.value.resetAt <= now then Decision(true, RateEntry(1, now + windowMs))
    else if e.value.count >= limit then Decision(false, e.value)
    else Decision(true, e.value.(count := e.value.count + 1))
  }

  /** How many of a run of calls for one key, made at the instants `times`, are
      admitted when the key starts with entry `e`. */
  function AdmittedCount(e: Option<RateEntry>, times: seq<int>, limit: int, windowMs: int): nat
    decreases |times|
  {
    if times == [] then 0
    else
      var d := Decide(e, times[0], limit, windowMs);
      (if d.allowed then 1 else 0) + AdmittedCount(Some(d.entry), times[1..], limit, windowMs)
  }

  /** Inside a window that has already admitted `count` calls, at most
      `limit - count` more calls are admitted before the window ends. */
  lemma {:induction false} WindowBound(count: int, resetAt: int, times: seq<int>, limit: int, windowMs: int)
    requires forall k :: 0 <= k < |times| ==> times[k] < resetAt
    ensures AdmittedCount(Some(RateEntry(count, resetAt)), times, limit, windowMs) <= Max(0, limit - count)
    decreases |times|
  {
    if times != [] {
      var d := Decide(Some(RateEntry(count, resetAt)), times[0], limit, windowMs);
      assert d.entry.resetAt == resetAt;
      WindowBound(d.entry.count, resetAt, times[1..], limit, windowMs);
    }
  }

  /** A window opened by a call at `start` admits at most `max(limit, 1)` calls
      (the opening call included) among calls made before it ends. */
  lemma FreshWindowBound(e: Option<RateEntry>, start: int, rest: seq<int>, limit: int, windowMs: int)
    requires e.None? || e.value.resetAt <= start
    requires forall k :: 0 <= k < |rest| ==> rest[k] < start + windowMs
    ensures AdmittedCount(e, [start] + rest, limit, windowMs) <= Max(limit, 1)
  {
    assert ([start] + rest)[1..] == rest;
    WindowBound(1, start + windowMs, rest, limit, windowMs);
  }

  /** The limiter's store. */
  class RateLimiter {
    var entries: map<string, RateEntry>

    constructor ()
      ensures entries == map[]
    {
      entries := map[];
    }

    /** `rateLimit(key, limit, windowMs)` at instant `now`: true when the call is
        admitted. Entries of other keys are never touched. */
    method Admit(key: string, limit: int, windowMs: int, now: int) returns (allowed: bool)
      modifies this
      ensures key !in old(entries) || old(entries)[key].resetAt <= now ==>
                allowed && entries == old(entries)[key := RateEntry(1, now + windowMs)]
      ensures key in old(entries) && now < old(entries)[key].resetAt && old(entries)[key].count >= limit ==>
                !allowed && entries == old(entries)
      ensures key in old(entries) && now < old(entries)[key].resetAt && old(entries)[key].count < limit ==>
                allowed && entries == old(entries)[key := old(entries)[key].(count := old(entries)[key].count + 1)]
      ensures var d := Decide(if key in old(entries) then Some(old(entries)[key]) else None, now, limit, windowMs);
                allowed == d.allowed && entries == old(entries)[key := d.entry]
    {
      if key !in entries || entries[key].resetAt <= now {
        entries := entries[key := RateEntry(1, now + windowMs)];
        return true;
      }
      var entry := entries[key];
      if entry.count >= limit {
        return false;
      }
      entry := entry.(count := entry.count + 1);
      entries := entries[key := entry];
      return true;
    }
  }
}
