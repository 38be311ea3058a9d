/** The shared fixed-window rate limiter, and how much it lets through in a sliding window. */
module RateLimit {
  import opened Basics

  type pos = n: nat | 0 < n witness 1

  // A Redis counter key with its EXPIRE deadline.
  datatype Counter = Absent | Counter(count: pos, expiresAt: Time)

  // INCR, and EXPIRE when the key is new.
  function Incremented(c: Counter, now: Time, window: Time): Counter {
    if c.Absent? || c.expiresAt <= now then Counter(1, now + window) else c.(count := c.count + 1)
  }

  // The counter of one key after calls at the given times, by any of the instances.
  function After(times: seq<Time>, window: Time): (c: Counter)
    ensures times != [] ==> c.Counter?
    decreases |times|
  {
    if times == [] then Absent
    else Incremented(After(times[..|times| - 1], window), times[|times| - 1], window)
  }

  // Whether the last of the calls is allowed.
  predicate LastAllowed(times: seq<Time>, limit: nat, window: Time)
    requires times != []
  {
    After(times, window).count <= limit
  }

  // The calls, and the allowed calls, from a time on and before another.
  function CallsIn(times: seq<Time>, from: Time, until: Time): nat
    decreases |times|
  {
    if times == [] then 0
    else CallsIn(times[..|times| - 1], from, until) + if from <= times[|times| - 1] < until then 1 else 0
  }

  function AllowedIn(times: seq<Time>, limit: nat, window: Time, from: Time, until: Time): nat
    decreases |times|
  {
    if times == [] then 0
    else AllowedIn(times[..|times| - 1], limit, window, from, until)
         + if from <= times[|times| - 1] < until && LastAllowed(times, limit, window) then 1 else 0
  }

  ghost predicate Ordered(times: seq<Time>) {
    forall i, j :: 0 <= i <= j < |times| ==> times[i] <= times[j]
  }

  // The counter was born at or before the last call and has not expired since.
  lemma {:induction false} Birth(times: seq<Time>, window: Time)
    requires 0 < window && times != [] && Ordered(times)
    ensures After(times, window).expiresAt - window <= times[|times| - 1] < After(times, window).expiresAt
    decreases |times|
  {
    if |times| > 1 {
      Birth(times[..|times| - 1], window);
    }
  }

  lemma {:induction false} NothingBefore(times: seq<Time>, limit: nat, window: Time, from: Time, until: Time)
    requires Ordered(times) && (times != [] ==> times[|times| - 1] < from)
    ensures AllowedIn(times, limit, window, from, until) == 0 && CallsIn(times, from, until) == 0
    decreases |times|
  {
    if times != [] {
      NothingBefore(times[..|times| - 1], limit, window, from, until);
    }
  }

  // What an interval has let through so far, by where the current counter was born.
  lemma {:induction false} SlidingCount(times: seq<Time>, limit: nat, window: Time, from: Time)
    requires 0 < window && 0 < limit && times != [] && Ordered(times)
    ensures var c := After(times, window);
            var born, allowed := c.expiresAt - window, AllowedIn(times, limit, window, from, from + window);
            if born < from then allowed <= Min(c.count, limit) - 1
            else if born < from + window then allowed <= limit - 1 + Min(c.count, limit)
            else allowed <= 2 * limit - 1
    decreases |times|
  {
    Birth(times, window);
    var before, now := times[..|times| - 1], times[|times| - 1];
    if before != [] {
      Birth(before, window);
      SlidingCount(before, limit, window, from);
    }
    if now < from {
      NothingBefore(times, limit, window, from, from + window);
    }
  }

  /**
   * Sliding bound: in any run at most 2 * limit - 1 calls are allowed in any half-open interval as
   * long as the window.
   */
  lemma {:induction false} SlidingBound(times: seq<Time>, limit: nat, window: Time, from: Time)
    requires 0 < window && 0 < limit && Ordered(times)
    ensures AllowedIn(times, limit, window, from, from + window) <= 2 * limit - 1
  {
    if times != [] {
      SlidingCount(times, limit, window, from);
    }
  }

  // The window's first call, the rest of one quota at its end, and the next quota right after.
  function Burst(limit: nat, window: Time, n: nat): seq<Time> {
    seq(n, k requires 0 <= k => if k == 0 then 0 else if k < limit then window - 1 else window)
  }

  lemma {:induction false} BurstCount(limit: nat, window: Time, n: nat)
    requires 0 < limit && 1 < window && 0 < n <= 2 * limit
    ensures Ordered(Burst(limit, window, n))
    ensures After(Burst(limit, window, n), window)
         == if n <= limit then Counter(n, window) else Counter(n - limit, 2 * window)
    ensures AllowedIn(Burst(limit, window, n), limit, window, window - 1, 2 * window - 1) == n - 1
    decreases n
  {
    var times := Burst(limit, window, n);
    if n == 1 {
      assert times == [0] && times[..0] == [];
    } else {
      BurstFront(limit, window, n);
      BurstCount(limit, window, n - 1);
    }
  }

  lemma BurstFront(limit: nat, window: Time, n: nat)
    requires 0 < limit && 0 < n
    ensures var times := Burst(limit, window, n);
            && times[..n - 1] == Burst(limit, window, n - 1)
            && times[n - 1] == if n == 1 then 0 else if n <= limit then window - 1 else window
  {
  }

  /** The bound is reached, for every limit and every window longer than one time unit. */
  lemma {:induction false} SlidingBoundReached(limit: nat, window: Time) returns (times: seq<Time>, from: Time)
    requires 0 < limit && 1 < window
    ensures Ordered(times) && AllowedIn(times, limit, window, from, from + window) == 2 * limit - 1
  {
    times, from := Burst(limit, window, 2 * limit), window - 1;
    BurstCount(limit, window, 2 * limit);
  }

  /**
   * Counter lifetime: from a call that creates the counter, for one window, exactly the first `limit`
   * calls are allowed.
   */
  lemma {:induction false} LifetimeQuota(times: seq<Time>, k: nat, limit: nat, window: Time)
    requires 0 < window && k < |times| && Ordered(times)
    requires After(times[..k + 1], window) == Counter(1, times[k] + window)
    requires k > 0 ==> After(times[..k], window).expiresAt <= times[k]
    ensures AllowedIn(times, limit, window, times[k], times[k] + window)
         == Min(limit, CallsIn(times, times[k], times[k] + window))
    ensures times[|times| - 1] < times[k] + window ==>
              After(times, window) == Counter(CallsIn(times, times[k], times[k] + window), times[k] + window)
    decreases |times|
  {
    var last, from := |times| - 1, times[k];
    var before := times[..last];
    if k == last {
      assert times[..k + 1] == times;
      if k > 0 {
        assert before == times[..k];
        Birth(before, window);
      }
      NothingBefore(before, limit, window, from, from + window);
    } else {
      assert before[..k + 1] == times[..k + 1] && before[..k] == times[..k];
      LifetimeQuota(before, k, limit, window);
    }
  }

  // ---------- The limiter as it runs ----------

  function Sanitized(action: string): (s: string)
    ensures |s| == |action| && ':' !in s
    ensures forall k :: 0 <= k < |s| ==> s[k] == if action[k] == ':' then '_' else action[k]
  {
    if action == [] then [] else [if action[0] == ':' then '_' else action[0]] + Sanitized(action[1..])
  }

  // A call: the user, the action, and when the script runs.
  datatype Call = Call(user: UserId, action: string, at: Time)

  type Counters = map<(string, UserId), Counter>

  function Stored(counters: Counters, key: (string, UserId)): Counter {
    if key in counters then counters[key] else Absent
  }

  // The counters after a history of calls, each action with its own window.
  function AfterCalls(calls: seq<Call>, window: string -> Time): Counters
    decreases |calls|
  {
    if calls == [] then map[]
    else
      var before, call := AfterCalls(calls[..|calls| - 1], window), calls[|calls| - 1];
      var key := (Sanitized(call.action), call.user);
      before[key := Incremented(Stored(before, key), call.at, window(Sanitized(call.action)))]
  }

  // When the calls of one key came.
  function TimesOf(calls: seq<Call>, key: (string, UserId)): seq<Time>
    decreases |calls|
  {
    if calls == [] then []
    else
      var call := calls[|calls| - 1];
      TimesOf(calls[..|calls| - 1], key)
      + if call.user == key.1 && Sanitized(call.action) == key.0 then [call.at] else []
  }

  /**
   * Keys are apart: after any calls of any users, the counter of a user and a sanitized action is what that user's
   * calls of that action alone make of it.
   */
  lemma {:induction false} CountersApart(calls: seq<Call>, window: string -> Time, key: (string, UserId))
    ensures Stored(AfterCalls(calls, window), key) == After(TimesOf(calls, key), window(key.0))
    decreases |calls|
  {
    if calls != [] {
      CountersApart(calls[..|calls| - 1], window, key);
      var times := TimesOf(calls[..|calls| - 1], key);
      assert (times + [calls[|calls| - 1].at])[..|times|] == times;
      assert times + [] == times;
    }
  }

  class RateLimiter {
    var counters: Counters

    constructor ()
      ensures counters == map[]
    {
      counters := map[];
    }

    // The script on one key: a missing or expired counter starts at one with a new window, another is counted up.
    method AllowAction(u: UserId, action: string, limit: nat, window: Time, now: Time) returns (allowed: bool)
      modifies this
      ensures var key := (Sanitized(action), u);
              && counters == old(counters)[key := Incremented(Stored(old(counters), key), now, window)]
              && counters[key].Counter? && allowed == (counters[key].count <= limit)
      ensures var key := (Sanitized(action), u);
              counters[key] ==
                if key in old(counters) && old(counters)[key].Counter? && now < old(counters)[key].expiresAt
                then Counter(old(counters)[key].count + 1, old(counters)[key].expiresAt) else Counter(1, now + window)
    {
      var key := (Sanitized(action), u);
      var count, expiresAt := 0, now;
      if key in counters && counters[key].Counter? && now < counters[key].expiresAt {
        count, expiresAt := counters[key].count, counters[key].expiresAt;
      }
      count := count + 1;
      if count == 1 {
        expiresAt := now + window;
      }
      counters := counters[key := Counter(count, expiresAt)];
      allowed := count <= limit;
    }
  }
}
