/**
 The fixed-window limiter that runs as a script in Redis: count up, start the expiry at the first call, compare with
 the limit.
 */
module RateLimit {
  import opened Wrappers

  /** The counter of one key and the time, in milliseconds, at which it expires. */
  datatype Counter = Counter(n: nat, expires: int)

  /** `window` is in nanoseconds; `lingers` says whether a key still exists in the very millisecond it expires. */
  datatype Policy = Policy(limit: int, window: int, lingers: bool)

  /** Go's Duration.Milliseconds truncates towards zero. */
  function Millis(window: int): int {
    if window >= 0 then window / 1_000_000 else -((-window) / 1_000_000)
  }

  predicate Over(p: Policy, expires: int, now: int) {
    if p.lingers then now > expires else now >= expires
  }

  /** The counter after one call; an expiry that is not positive deletes the key at once. */
  function Count(p: Policy, c: Option<Counter>, now: int): (r: (Option<Counter>, bool)) {
    if c.Some? && !Over(p, c.value.expires, now) then (Some(c.value.(n := c.value.n + 1)), c.value.n + 1 <= p.limit)
    else (if Millis(p.window) <= 0 then None else Some(Counter(1, now + Millis(p.window))), 1 <= p.limit)
  }

  class Limiter {
    var counters: map<string, Counter>

    constructor ()
      ensures counters == map[]
    {
      counters := map[];
    }

    method Allow(key: string, p: Policy, now: int) returns (ok: bool)
      modifies this
      ensures var c := if key in old(counters) then Some(old(counters)[key]) else None;
              var r := Count(p, c, now);
              && ok == r.1
              && (r.0.Some? <==> key in counters) && (r.0.Some? ==> counters[key] == r.0.value)
      ensures counters - {key} == old(counters) - {key}
      ensures var alive := key in old(counters)
                           && (now < old(counters)[key].expires || (p.lingers && now == old(counters)[key].expires));
              && ok == ((if alive then old(counters)[key].n + 1 else 1) <= p.limit)
              && (alive ==> key in counters
                            && counters[key] == Counter(old(counters)[key].n + 1, old(counters)[key].expires))
              && (!alive && p.window >= 1_000_000 ==>
                    key in counters && counters[key] == Counter(1, now + p.window / 1_000_000))
              && (!alive && p.window < 1_000_000 ==> key !in counters)
    {
      if key in counters && Over(p, counters[key].expires, now) {
        counters := counters - {key};
      }
      var first := key !in counters;
      var n := if first then 1 else counters[key].n + 1;
      if !first {
        counters := counters[key := counters[key].(n := n)];
      } else if Millis(p.window) > 0 {
        counters := counters[key := Counter(1, now + Millis(p.window))];
      }
      ok := n <= p.limit;
    }
  }

  // ---------------------------------------------------------------- runs of one key

  predicate Ordered(times: seq<int>) {
    forall i, j :: 0 <= i <= j < |times| ==> times[i] <= times[j]
  }

  /** The counter before call k of a run that starts without one. */
  function Before(p: Policy, times: seq<int>, k: nat): Option<Counter>
    requires k <= |times|
  {
    if k == 0 then None else Count(p, Before(p, times, k - 1), times[k - 1]).0
  }

  predicate Allowed(p: Policy, times: seq<int>, k: nat)
    requires k < |times|
  {
    Count(p, Before(p, times, k), times[k]).1
  }

  /** The first call of the window that call k falls into. */
  function First(p: Policy, times: seq<int>, k: nat): nat
    requires k < |times|
  {
    var c := Before(p, times, k);
    if k > 0 && c.Some? && !Over(p, c.value.expires, times[k]) then First(p, times, k - 1) else k
  }

  /** What the stored counter means. */
  lemma {:induction false} CounterMeaning(p: Policy, times: seq<int>, k: nat)
    requires k < |times| && Millis(p.window) >= 1
    ensures First(p, times, k) <= k
    ensures var first := First(p, times, k);
            Before(p, times, k + 1) == Some(Counter(k - first + 1, times[first] + Millis(p.window)))
    decreases k
  {
    if k > 0 {
      CounterMeaning(p, times, k - 1);
    }
  }

  /** A window lasts as long as it should: the next call belongs to it while the window's time has not passed since its
      first call, and starts a new one afterwards. */
  lemma WindowLasts(p: Policy, times: seq<int>, k: nat)
    requires 0 < k < |times| && p.window >= 1_000_000
    ensures First(p, times, k - 1) < |times|
    ensures var past := times[k] - times[First(p, times, k - 1)];
            && (past < p.window / 1_000_000 ==> First(p, times, k) == First(p, times, k - 1))
            && (past > p.window / 1_000_000 ==> First(p, times, k) == k)
            && (past == p.window / 1_000_000 ==> First(p, times, k) == if p.lingers then First(p, times, k - 1) else k)
  {
    CounterMeaning(p, times, k - 1);
  }

  /** Of each window exactly the first `limit` calls are allowed. */
  lemma FirstCallsAllowed(p: Policy, times: seq<int>, k: nat)
    requires k < |times| && Millis(p.window) >= 1
    ensures Allowed(p, times, k) <==> k - First(p, times, k) < p.limit
  {
    if k > 0 {
      CounterMeaning(p, times, k - 1);
    }
  }

  /** Call k comes before its window is over. */
  lemma {:induction false} InWindow(p: Policy, times: seq<int>, k: nat)
    requires k < |times| && Millis(p.window) >= 1 && Ordered(times)
    ensures First(p, times, k) <= k
    ensures !Over(p, times[First(p, times, k)] + Millis(p.window), times[k])
    decreases k
  {
    if k > 0 {
      CounterMeaning(p, times, k - 1);
    }
  }

  /** A later window starts after the earlier one is over. */
  lemma {:induction false} WindowsApart(p: Policy, times: seq<int>, i: nat, k: nat)
    requires i <= k < |times| && Millis(p.window) >= 1 && Ordered(times)
    ensures First(p, times, i) <= First(p, times, k) <= k
    ensures First(p, times, i) < First(p, times, k) ==>
              i < First(p, times, k) && Over(p, times[First(p, times, i)] + Millis(p.window), times[First(p, times, k)])
    decreases k
  {
    CounterMeaning(p, times, k);
    if i < k {
      WindowsApart(p, times, i, k - 1);
      CounterMeaning(p, times, k - 1);
      CounterMeaning(p, times, i);
    }
  }

  /** A span no longer than the window meets at most two windows. */
  lemma TwoWindows(p: Policy, times: seq<int>, i: nat, k: nat, j: nat)
    requires i <= k <= j < |times| && Millis(p.window) >= 1 && Ordered(times)
    requires times[j] - times[i] <= Millis(p.window)
    ensures First(p, times, k) == First(p, times, i) || First(p, times, k) == First(p, times, j)
  {
    WindowsApart(p, times, i, k);
    WindowsApart(p, times, k, j);
    InWindow(p, times, i);
  }

  /** The allowed calls from i to j. */
  function AllowedIn(p: Policy, times: seq<int>, i: nat, j: nat): set<nat>
    requires i <= j < |times|
  {
    set k: nat | i <= k <= j && Allowed(p, times, k)
  }

  /** In every run, a span of calls no longer than the window has at most 2 x limit allowed ones. */
  lemma AtMostTwiceTheLimit(p: Policy, times: seq<int>, i: nat, j: nat)
    requires i <= j < |times| && p.window >= 1_000_000 && Ordered(times)
    requires (times[j] - times[i]) * 1_000_000 <= p.window
    ensures |AllowedIn(p, times, i, j)| <= 2 * (if p.limit > 0 then p.limit else 0)
  {
    var a, b := First(p, times, i), First(p, times, j);
    var n: nat := if p.limit > 0 then p.limit else 0;
    forall k: nat | i <= k <= j && Allowed(p, times, k)
      ensures k in Block(a, n) + Block(b, n)
    {
      TwoWindows(p, times, i, k, j);
      FirstCallsAllowed(p, times, k);
      CounterMeaning(p, times, k);
    }
    Fewer(AllowedIn(p, times, i, j), Block(a, n) + Block(b, n));
  }

  /** n numbers from a on. */
  function Block(a: nat, n: nat): (r: set<nat>)
    ensures forall k :: k in r <==> a <= k < a + n
    ensures |r| == n
  {
    if n == 0 then {} else Block(a, n - 1) + {a + n - 1}
  }

  lemma {:induction false} Fewer(a: set<nat>, b: set<nat>)
    requires a <= b
    ensures |a| <= |b|
    decreases |a|
  {
    if x :| x in a {
      Fewer(a - {x}, b - {x});
    }
  }

  // ---------------------------------------------------------------- windows under a millisecond

  ghost predicate Limits(p: Policy) {
    forall times: seq<int>, i: nat, j: nat ::
      i <= j < |times| && Ordered(times) && times[j] - times[i] <= Millis(p.window) ==>
        |AllowedIn(p, times, i, j)| <= 2 * (if p.limit > 0 then p.limit else 0)
  }

  lemma {:induction false} NeverCounts(p: Policy, times: seq<int>, k: nat)
    requires k < |times| && Millis(p.window) <= 0
    ensures Before(p, times, k).None? && (Allowed(p, times, k) <==> p.limit >= 1)
    decreases k
  {
    if k > 0 {
      NeverCounts(p, times, k - 1);
    }
  }

  lemma AllowsNothing(p: Policy, times: seq<int>, i: nat, j: nat)
    requires i <= j < |times| && Millis(p.window) <= 0 && p.limit <= 0
    ensures AllowedIn(p, times, i, j) == {}
  {
  }

  /** With a window under a millisecond any number of calls in one millisecond is allowed. */
  lemma NeverLimits(p: Policy, n: nat) returns (times: seq<int>)
    requires Millis(p.window) == 0 && p.limit >= 1
    ensures |times| == n + 1 && (forall k :: 0 <= k <= n ==> times[k] == 0) && |AllowedIn(p, times, 0, n)| == n + 1
  {
    times := seq(n + 1, _ => 0);
    forall k: nat | k <= n
      ensures Allowed(p, times, k)
    {
      NeverCounts(p, times, k);
    }
    assert AllowedIn(p, times, 0, n) == Block(0, n + 1);
  }

  /** The bound holds for a policy exactly when its window is at least a millisecond, or it allows nothing, or the
      window is negative so that no span is that short. */
  lemma LimitsIff(p: Policy)
    ensures Limits(p) <==> Millis(p.window) != 0 || p.limit <= 0
  {
    if Millis(p.window) == 0 && p.limit >= 1 {
      var times := NeverLimits(p, 2 * p.limit);
      assert !Limits(p);
    } else {
      forall times: seq<int>, i: nat, j: nat |
        i <= j < |times| && Ordered(times) && times[j] - times[i] <= Millis(p.window)
        ensures |AllowedIn(p, times, i, j)| <= 2 * (if p.limit > 0 then p.limit else 0)
      {
        assert times[i] <= times[j];
        if Millis(p.window) >= 1 {
          AtMostTwiceTheLimit(p, times, i, j);
        } else {
          AllowsNothing(p, times, i, j);
        }
      }
    }
  }
}
