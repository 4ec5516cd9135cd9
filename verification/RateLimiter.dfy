/** The in-memory sliding-window limiter (src/node/rate-limiter.ts). */
module RateLimiter {

  /** Times after `from`, in order. */
  function After(times: seq<int>, from: int): seq<int> {
    if times == [] then []
    else if times[0] > from then [times[0]] + After(times[1..], from)
    else After(times[1..], from)
  }

  function Get(hits: map<string, seq<int>>, key: string): seq<int> {
    if key in hits then hits[key] else []
  }

  lemma {:induction false} AfterAppend(a: seq<int>, b: seq<int>, from: int)
    ensures After(a + b, from) == After(a, from) + After(b, from)
  {
    if a == [] { assert a + b == b; } else {
      assert (a + b)[1..] == a[1..] + b;
      AfterAppend(a[1..], b, from);
    }
  }

  /** Pruning at an earlier boundary does not show at a later one. */
  lemma {:induction false} AfterTwice(times: seq<int>, from: int, later: int)
    requires from <= later
    ensures After(After(times, from), later) == After(times, later)
  {
    if times != [] {
      AfterTwice(times[1..], from, later);
    }
  }

  lemma {:induction false} AfterShrinks(times: seq<int>, from: int, later: int)
    requires from <= later
    ensures |After(times, later)| <= |After(times, from)|
  {
    if times != [] {
      AfterShrinks(times[1..], from, later);
    }
  }

  // ---- How many grants fall in a window ------------------------------------

  /** Grants in the half-open interval (from, until]. */
  function Granted(times: seq<int>, from: int, until: int): nat {
    if times == [] then 0
    else Granted(times[..|times| - 1], from, until) + if from < times[|times| - 1] <= until then 1 else 0
  }

  predicate Bounded(times: seq<int>, last: int) {
    forall i | 0 <= i < |times| :: times[i] <= last
  }

  lemma {:induction false} GrantedIsAfter(times: seq<int>, from: int, until: int)
    requires Bounded(times, until)
    ensures Granted(times, from, until) == |After(times, from)|
  {
    if times != [] {
      var init, t := times[..|times| - 1], times[|times| - 1];
      GrantedIsAfter(init, from, until);
      AfterAppend(init, [t], from);
      assert init + [t] == times;
      assert After([t], from) == if t > from then [t] else [];
    }
  }

  /** The least integer that is not below `max`, and no less than zero. */
  function Ceiling(max: real): nat {
    if max <= 0.0 then 0 else
      var f := max.Floor;
      if f as real == max then f else f + 1
  }

  lemma CeilingMeans(max: real)
    ensures max <= Ceiling(max) as real && (max >= 0.0 ==> Ceiling(max) as real < max + 1.0) && (max < 0.0 ==> Ceiling(max) == 0)
  {
  }

  /** Grants in the window of the given length that ends at `until`. */
  function InWindow(times: seq<int>, until: int, windowMs: int): nat {
    Granted(times, until - windowMs, until)
  }

  /** No window of the given length holds more grants than the limit allows. */
  ghost predicate WithinLimit(times: seq<int>, max: real, windowMs: int) {
    forall until: int :: InWindow(times, until, windowMs) <= Ceiling(max)
  }

  /** Granting at `now` while fewer than `max` recent grants stand keeps every window within the limit. */
  lemma GrantKeepsLimit(times: seq<int>, now: int, max: real, windowMs: int)
    requires WithinLimit(times, max, windowMs) && Bounded(times, now)
    requires |After(times, now - windowMs)| as real < max
    ensures WithinLimit(times + [now], max, windowMs)
  {
    forall until: int ensures InWindow(times + [now], until, windowMs) <= Ceiling(max) {
      assert (times + [now])[..|times|] == times;
      assert InWindow(times, until, windowMs) <= Ceiling(max);
      if until - windowMs < now <= until {
        GrantedIsAfter(times, until - windowMs, until);
        AfterShrinks(times, now - windowMs, until - windowMs);
        CountBelow(|After(times, now - windowMs)|, max);
      }
    }
  }

  lemma CountBelow(n: nat, max: real)
    requires n as real < max
    ensures n + 1 <= Ceiling(max)
  {
  }

  // ---- The limiter ---------------------------------------------------------

  /** A pruned list shows the same recent grants as the full history, which exceeds no window's limit. */
  ghost predicate Tracks(pruned: seq<int>, history: seq<int>, clock: int, max: real, windowMs: int) {
    && After(pruned, clock - windowMs) == After(history, clock - windowMs)
    && Bounded(history, clock)
    && WithinLimit(history, max, windowMs)
  }

  lemma TracksLater(pruned: seq<int>, history: seq<int>, clock: int, now: int, max: real, windowMs: int)
    requires Tracks(pruned, history, clock, max, windowMs) && clock <= now
    ensures Tracks(pruned, history, now, max, windowMs)
    ensures Tracks(After(pruned, now - windowMs), history, now, max, windowMs)
  {
    AfterTwice(pruned, clock - windowMs, now - windowMs);
    AfterTwice(history, clock - windowMs, now - windowMs);
    AfterTwice(pruned, now - windowMs, now - windowMs);
  }

  lemma TracksGrant(recent: seq<int>, history: seq<int>, now: int, max: real, windowMs: int)
    requires Tracks(recent, history, now, max, windowMs)
    requires |After(history, now - windowMs)| as real < max
    ensures Tracks(recent + [now], history + [now], now, max, windowMs)
  {
    AfterAppend(recent, [now], now - windowMs);
    AfterAppend(history, [now], now - windowMs);
    GrantKeepsLimit(history, now, max, windowMs);
  }

  // ---- Runs of requests for one key ----------------------------------------

  /** Decisions on the pruned list, as the limiter takes them. */
  function PrunedDecisions(recent: seq<int>, requests: seq<int>, max: real, windowMs: int): seq<bool>
    decreases |requests|
  {
    if requests == [] then [] else
      var now := requests[0];
      var kept := After(recent, now - windowMs);
      var success := (|kept| as real) < max;
      [success] + PrunedDecisions(if success then kept + [now] else kept, requests[1..], max, windowMs)
  }

  /** Decisions on the full grant history. */
  function FullDecisions(history: seq<int>, requests: seq<int>, max: real, windowMs: int): seq<bool>
    decreases |requests|
  {
    if requests == [] then [] else
      var now := requests[0];
      var success := (|After(history, now - windowMs)| as real) < max;
      [success] + FullDecisions(if success then history + [now] else history, requests[1..], max, windowMs)
  }

  function Grants(history: seq<int>, requests: seq<int>, max: real, windowMs: int): seq<int>
    decreases |requests|
  {
    if requests == [] then history else
      var now := requests[0];
      Grants(if (|After(history, now - windowMs)| as real) < max then history + [now] else history, requests[1..], max, windowMs)
  }

  ghost predicate ClockNeverGoesBack(requests: seq<int>, start: int) {
    && (requests != [] ==> start <= requests[0])
    && forall i | 0 < i < |requests| :: requests[i - 1] <= requests[i]
  }

  /** In every run the pruned list decides like the full history, and no interval (T - windowMs, T] exceeds ceil(max). */
  lemma {:induction false} EveryWindowIsLimited(
      recent: seq<int>, history: seq<int>, clock: int, requests: seq<int>, max: real, windowMs: int)
    requires Tracks(recent, history, clock, max, windowMs) && ClockNeverGoesBack(requests, clock)
    ensures PrunedDecisions(recent, requests, max, windowMs) == FullDecisions(history, requests, max, windowMs)
    ensures WithinLimit(Grants(history, requests, max, windowMs), max, windowMs)
    decreases |requests|
  {
    if requests != [] {
      var now := requests[0];
      var kept := After(recent, now - windowMs);
      var success := (|kept| as real) < max;
      TracksLater(recent, history, clock, now, max, windowMs);
      if success {
        TracksGrant(kept, history, now, max, windowMs);
      }
      assert forall i | 0 < i < |requests[1..]| :: requests[1..][i - 1] == requests[i] && requests[1..][i] == requests[i + 1];
      EveryWindowIsLimited(if success then kept + [now] else kept, if success then history + [now] else history,
        now, requests[1..], max, windowMs);
    }
  }

  class MemoryRateLimiter {
    const max: real
    const windowMs: int
    var hits: map<string, seq<int>>
    /** Every grant ever made, never pruned. */
    ghost var history: map<string, seq<int>>
    ghost var clock: int

    ghost predicate Valid()
      reads this
    {
      forall key: string :: Tracks(Get(hits, key), Get(history, key), clock, max, windowMs)
    }

    constructor (max: real, windowMs: int)
      ensures Valid() && this.max == max && this.windowMs == windowMs && history == map[] && clock == 0
    {
      this.max, this.windowMs := max, windowMs;
      hits, history, clock := map[], map[], 0;
    }

    /** The decision is that of the full history, and no window ever exceeds the limit. */
    method Limit(key: string, now: int) returns (success: bool)
      requires Valid() && clock <= now
      modifies this
      ensures Valid() && clock == now
      ensures var granted := if key in old(history) then old(history)[key] else [];
              && (success <==> (|After(granted, now - windowMs)| as real) < max)
              && history == if success then old(history)[key := granted + [now]] else old(history)
    {
      forall other: string ensures Tracks(Get(hits, other), Get(history, other), now, max, windowMs) {
        TracksLater(Get(hits, other), Get(history, other), clock, now, max, windowMs);
      }
      ghost var grants := Get(history, key);
      var recent := After(Get(hits, key), now - windowMs);
      TracksLater(Get(hits, key), grants, clock, now, max, windowMs);
      clock := now;
      if |recent| as real >= max {
        hits := hits[key := recent];
        return false;
      }
      TracksGrant(recent, grants, now, max, windowMs);
      hits := hits[key := recent + [now]];
      history := history[key := grants + [now]];
      success := true;
    }
  }
}
