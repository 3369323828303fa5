/** The fixed-window limiter of control_plane/auth/rate_limit.py, and how many calls it really lets
    through in an arbitrary stretch of time. */
module RateLimit {
  import opened Basics

  datatype Bucket = Bucket(windowStartedAt: real, attempts: nat)

  // One call: the bucket it leaves, and whether it was let through.
  function Checked(b: Option<Bucket>, limit: int, window: real, now: real): (r: (Option<Bucket>, bool)) {
    if b.None? || b.value.windowStartedAt + window <= now then (Some(Bucket(now, 1)), true)
    else if b.value.attempts >= limit then (b, false)
    else (Some(Bucket(b.value.windowStartedAt, b.value.attempts + 1)), true)
  }

  function Lookup(buckets: map<string, Bucket>, key: string): (b: Option<Bucket>) {
    if key in buckets then Some(buckets[key]) else None
  }

  class RateLimiter {
    var buckets: map<string, Bucket>

    constructor ()
      ensures buckets == map[]
    {
      buckets := map[];
    }

    /** `check`: only its own bucket is written, and a refused call writes nothing. */
    method Check(key: string, limit: int, window: real, now: real) returns (accepted: bool)
      modifies this
      ensures (Lookup(buckets, key), accepted) == Checked(Lookup(old(buckets), key), limit, window, now)
      ensures forall other | other != key :: Lookup(buckets, other) == Lookup(old(buckets), other)
      ensures !accepted ==> buckets == old(buckets)
    {
      if key !in buckets || buckets[key].windowStartedAt + window <= now {
        buckets := buckets[key := Bucket(now, 1)];
        return true;
      }
      if buckets[key].attempts >= limit {
        return false;
      }
      buckets := buckets[key := buckets[key].(attempts := buckets[key].attempts + 1)];
      accepted := true;
    }
  }

  // ---- runs of one bucket ----

  function After(b: Option<Bucket>, limit: int, window: real, times: seq<real>): (r: Option<Bucket>)
    decreases |times|
  {
    if times == [] then b else After(Checked(b, limit, window, times[0]).0, limit, window, times[1..])
  }

  // How many calls at a time from `from` on and before `from + window` are let through.
  function AcceptedIn(b: Option<Bucket>, limit: int, window: real, times: seq<real>, from: real): (n: nat)
    decreases |times|
  {
    if times == [] then 0 else
    var (next, accepted) := Checked(b, limit, window, times[0]);
    (if accepted && from <= times[0] < from + window then 1 else 0) + AcceptedIn(next, limit, window, times[1..], from)
  }

  predicate NonDecreasing(times: seq<real>) {
    forall i, j | 0 <= i < j < |times| :: times[i] <= times[j]
  }

  // A fresh window lets one call through whatever its limit.
  function Effective(limit: int): (n: nat) {
    if limit < 1 then 1 else limit
  }

  // What the interval can still let through, when nothing happens before `clock` any more.
  function Allowance(b: Option<Bucket>, limit: int, window: real, from: real, clock: real): (n: int) {
    var n := Effective(limit);
    var left := if b.Some? && b.value.attempts <= n then n - b.value.attempts else 0;
    if clock >= from + window then 0
    else if b.None? then (if clock < from then 2 * n - 1 else n)
    else if b.value.windowStartedAt >= from then left
    else if clock < from then 2 * n - 1
    else left + n
  }

  lemma {:induction false} AllowanceHolds(b: Option<Bucket>, limit: int, window: real, times: seq<real>, from: real,
                                          clock: real)
    requires window > 0.0 && NonDecreasing(times) && (times != [] ==> clock <= times[0])
    requires b.Some? ==> b.value.windowStartedAt <= clock && 1 <= b.value.attempts
    ensures AcceptedIn(b, limit, window, times, from) <= Allowance(b, limit, window, from, clock)
    decreases |times|
  {
    if times != [] {
      var next := Checked(b, limit, window, times[0]).0;
      assert times[1..] != [] ==> times[0] <= times[1..][0];
      AllowanceHolds(next, limit, window, times[1..], from, times[0]);
    }
  }

  lemma {:induction false} EmptyStretch(b: Option<Bucket>, limit: int, window: real, times: seq<real>, from: real)
    requires window <= 0.0
    ensures AcceptedIn(b, limit, window, times, from) == 0
    decreases |times|
  {
    if times != [] {
      EmptyStretch(Checked(b, limit, window, times[0]).0, limit, window, times[1..], from);
    }
  }

  /** However the calls fall, any stretch as long as a window lets through at most twice the limit less
      one: two windows at most reach into it, and the first of them opened before it. */
  lemma AnyStretchIsBounded(limit: int, window: real, times: seq<real>, from: real)
    requires NonDecreasing(times)
    ensures AcceptedIn(None, limit, window, times, from) <= 2 * Effective(limit) - 1
  {
    if window > 0.0 {
      var clock := if times == [] || from <= times[0] then from - 1.0 else times[0];
      AllowanceHolds(None, limit, window, times, from, clock);
    } else {
      EmptyStretch(None, limit, window, times, from);
    }
  }

  // ---- the bound is reached ----

  function Repeated(t: real, n: nat): (times: seq<real>) {
    seq(n, i => t)
  }

  lemma {:induction false} RunsJoin(b: Option<Bucket>, limit: int, window: real, first: seq<real>, second: seq<real>,
                                    from: real)
    ensures After(b, limit, window, first + second) == After(After(b, limit, window, first), limit, window, second)
    ensures AcceptedIn(b, limit, window, first + second, from)
            == AcceptedIn(b, limit, window, first, from)
               + AcceptedIn(After(b, limit, window, first), limit, window, second, from)
    decreases |first|
  {
    if first == [] {
      assert first + second == second;
    } else {
      assert (first + second)[1..] == first[1..] + second;
      RunsJoin(Checked(b, limit, window, first[0]).0, limit, window, first[1..], second, from);
    }
  }

  /** Within a window, calls are let through up to the limit. */
  lemma {:induction false} LimitIsGranted(b: Bucket, limit: int, window: real, t: real, n: nat, from: real)
    requires b.windowStartedAt <= t < b.windowStartedAt + window && b.attempts + n <= limit
    ensures After(Some(b), limit, window, Repeated(t, n)) == Some(b.(attempts := b.attempts + n))
    ensures AcceptedIn(Some(b), limit, window, Repeated(t, n), from) == if from <= t < from + window then n else 0
    decreases n
  {
    if n > 0 {
      assert Repeated(t, n)[1..] == Repeated(t, n - 1);
      LimitIsGranted(b.(attempts := b.attempts + 1), limit, window, t, n - 1, from);
    }
  }

  lemma OneCall(b: Option<Bucket>, limit: int, window: real, t: real, from: real)
    ensures After(b, limit, window, [t]) == Checked(b, limit, window, t).0
    ensures AcceptedIn(b, limit, window, [t], from)
            == if Checked(b, limit, window, t).1 && from <= t < from + window then 1 else 0
  {
  }

  /** And for every limit there are calls that reach the bound: one opens a window, the rest of its limit
      comes half a window later, and another full limit the moment it ends. */
  lemma BoundIsReached(limit: int, window: real) returns (times: seq<real>, from: real)
    requires limit >= 1 && window > 0.0
    ensures NonDecreasing(times) && AcceptedIn(None, limit, window, times, from) == 2 * limit - 1
  {
    var half := window / 2.0;
    var burst, refill := Repeated(half, limit - 1), Repeated(window, limit - 1);
    from := half;
    times := [0.0] + burst + [window] + refill;
    var first, full, reopened := Some(Bucket(0.0, 1)), Some(Bucket(0.0, limit)), Some(Bucket(window, 1));
    LimitIsGranted(first.value, limit, window, half, limit - 1, from);
    LimitIsGranted(reopened.value, limit, window, window, limit - 1, from);
    OneCall(None, limit, window, 0.0, from);
    OneCall(full, limit, window, window, from);
    RunsJoin(None, limit, window, [0.0], burst, from);
    RunsJoin(None, limit, window, [0.0] + burst, [window], from);
    RunsJoin(None, limit, window, [0.0] + burst + [window], refill, from);
  }
}
