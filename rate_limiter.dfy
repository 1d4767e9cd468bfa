/**
 * The per-tool sliding-window rate limiter and the registry that hands out
 * one limiter per tool name.
 *
 * Instants are integer microseconds; a limiter's window of
 * `timeWindowSeconds` seconds is `timeWindowSeconds * MicrosPerSecond`
 * microseconds. Each call to `CanMakeRequest` is one sequential step whose
 * instant is taken together with the purge and the append, so the instants
 * a limiter sees are in clock order whenever the clock is.
 */
module RateLimiting {
  import opened Numbers

  const MicrosPerSecond: int := 1_000_000

  ghost predicate Sorted(s: seq<int>) {
    forall i, j :: 0 <= i < j < |s| ==> s[i] <= s[j]
  }

  ghost predicate AllAtMost(s: seq<int>, bound: int) {
    forall i :: 0 <= i < |s| ==> s[i] <= bound
  }

  /**
   * The purge loop: drop entries from the front while the front one is
   * strictly more than `window` older than `now`.
   */
  function Purge(requests: seq<int>, now: int, window: int): (r: seq<int>)
    ensures |r| <= |requests|
    ensures forall i :: 0 <= i < |requests| - |r| ==> now - requests[i] > window
    ensures r == [] || now - r[0] <= window
    decreases |requests|
  {
    if requests != [] && now - requests[0] > window then Purge(requests[1..], now, window)
    else requests
  }

  /** What the purge keeps is the tail of the deque: it only ever pops from the front. */
  lemma {:induction false} PurgeIsSuffix(requests: seq<int>, now: int, window: int)
    ensures var r := Purge(requests, now, window);
      r == requests[|requests| - |r|..]
    decreases |requests|
  {
    if requests != [] && now - requests[0] > window {
      PurgeIsSuffix(requests[1..], now, window);
    }
  }

  /** The outcome of one admission check: the answer and the new deque. */
  datatype Decision = Decision(admitted: bool, requests: seq<int>)

  /** One call of the admission check at instant `now`: purge, then admit if a slot is free. */
  function Step(requests: seq<int>, now: int, maxRequests: int, window: int): (d: Decision)
    ensures d.admitted <==> |Purge(requests, now, window)| < maxRequests
    ensures d.admitted ==> |d.requests| <= maxRequests && d.requests == Purge(requests, now, window) + [now]
    ensures !d.admitted ==> |d.requests| >= maxRequests && d.requests == Purge(requests, now, window)
    ensures maxRequests <= 0 ==> !d.admitted
  {
    var kept := Purge(requests, now, window);
    if |kept| < maxRequests then Decision(true, kept + [now]) else Decision(false, kept)
  }

  /** The entries of `h` that are at most `window` older than `now`, in order. */
  function Recent(h: seq<int>, now: int, window: int): (r: seq<int>)
    ensures |r| <= |h|
    decreases |h|
  {
    if h == [] then []
    else (if now - h[0] <= window then [h[0]] else []) + Recent(h[1..], now, window)
  }

  /** How many entries of `h` lie in the closed interval [from, from + window]. */
  function WindowCount(h: seq<int>, from: int, window: int): nat
    decreases |h|
  {
    if h == [] then 0
    else (if from <= h[0] <= from + window then 1 else 0) + WindowCount(h[1..], from, window)
  }

  /** No closed interval of length `window` holds more admissions than the quota. */
  ghost predicate WindowBounded(h: seq<int>, maxRequests: int, window: int) {
    forall from :: WindowCount(h, from, window) <= Quota(maxRequests)
  }

  /** The state after replaying a log of calls: the deque and every admitted instant. */
  datatype Trace = Trace(requests: seq<int>, admitted: seq<int>)

  /** One admission check at `now` applied to a replayed state. */
  function Next(t: Trace, now: int, maxRequests: int, window: int): Trace {
    var d := Step(t.requests, now, maxRequests, window);
    Trace(d.requests, t.admitted + if d.admitted then [now] else [])
  }

  /** Replays a log of admission checks, oldest first, on a fresh limiter. */
  function Replay(calls: seq<int>, maxRequests: int, window: int): Trace
    decreases |calls|
  {
    if calls == [] then Trace([], [])
    else Next(Replay(calls[..|calls| - 1], maxRequests, window), calls[|calls| - 1], maxRequests, window)
  }

  /** What holds of a replayed state once the last call was made at `clock`. */
  ghost predicate Consistent(t: Trace, clock: int, maxRequests: int, window: int) {
    && Sorted(t.requests) && Sorted(t.admitted)
    && AllAtMost(t.requests, clock) && AllAtMost(t.admitted, clock)
    && |t.requests| <= Quota(maxRequests)
    && (window >= 0 ==> t.requests == Recent(t.admitted, clock, window))
    && WindowBounded(t.admitted, maxRequests, window)
  }

  /** A timestamp exactly one window old is kept and still blocks a limiter of one slot. */
  lemma WindowBoundaryIsInclusive(t: int, window: int)
    requires window >= 0
    ensures !Step([t], t + window, 1, window).admitted
    ensures Step([t], t + window + 1, 1, window).admitted
  {
  }

  /** The example of a one-request, five-second limiter admitted at instant 0. */
  lemma FiveSecondWindowExample()
    ensures var w := 5 * MicrosPerSecond;
      && Step([], 0, 1, w) == Decision(true, [0])
      && !Step([0], w, 1, w).admitted
      && Step([0], w + 1, 1, w).admitted
  {
  }

  lemma SortedAppend(s: seq<int>, x: int)
    requires Sorted(s) && (s == [] || s[|s| - 1] <= x)
    ensures Sorted(s + [x])
  {
  }

  /** The deque stays sorted when the clock does not go backwards. */
  lemma StepKeepsSorted(requests: seq<int>, now: int, maxRequests: int, window: int)
    requires Sorted(requests) && AllAtMost(requests, now)
    ensures var d := Step(requests, now, maxRequests, window);
      Sorted(d.requests) && AllAtMost(d.requests, now)
  {
    PurgeIsSuffix(requests, now, window);
  }

  /** On a sorted deque every entry kept by the purge is within the window of `now`. */
  lemma PurgedEntriesAreFresh(requests: seq<int>, now: int, window: int)
    requires Sorted(requests)
    ensures var kept := Purge(requests, now, window);
      forall i :: 0 <= i < |kept| ==> now - kept[i] <= window
  {
    var kept := Purge(requests, now, window);
    var k := |requests| - |kept|;
    PurgeIsSuffix(requests, now, window);
    forall i | 0 <= i < |kept| ensures now - kept[i] <= window {
      assert kept[i] == requests[k + i] && kept[0] == requests[k];
    }
  }

  lemma {:induction false} RecentOfFresh(h: seq<int>, now: int, window: int)
    requires forall i :: 0 <= i < |h| ==> now - h[i] <= window
    ensures Recent(h, now, window) == h
    decreases |h|
  {
    if h != [] {
      RecentOfFresh(h[1..], now, window);
    }
  }

  /** On a sorted deque the purge keeps exactly the entries within the window. */
  lemma {:induction false} PurgeOfSortedIsRecent(s: seq<int>, now: int, window: int)
    requires Sorted(s)
    ensures Purge(s, now, window) == Recent(s, now, window)
    decreases |s|
  {
    if s != [] {
      if now - s[0] > window {
        PurgeOfSortedIsRecent(s[1..], now, window);
      } else {
        PurgedEntriesAreFresh(s, now, window);
        RecentOfFresh(s, now, window);
      }
    }
  }

  /** Filtering at a later instant after filtering at an earlier one is filtering at the later one. */
  lemma {:induction false} RecentOfRecent(h: seq<int>, earlier: int, later: int, window: int)
    requires earlier <= later
    ensures Recent(Recent(h, earlier, window), later, window) == Recent(h, later, window)
    decreases |h|
  {
    if h != [] {
      RecentOfRecent(h[1..], earlier, later, window);
      var head := if earlier - h[0] <= window then [h[0]] else [];
      assert Recent(h, earlier, window) == head + Recent(h[1..], earlier, window);
      RecentOfConcat(head, Recent(h[1..], earlier, window), later, window);
    }
  }

  lemma {:induction false} RecentOfConcat(a: seq<int>, b: seq<int>, now: int, window: int)
    ensures Recent(a + b, now, window) == Recent(a, now, window) + Recent(b, now, window)
    decreases |a|
  {
    if a != [] {
      assert (a + b)[1..] == a[1..] + b;
      RecentOfConcat(a[1..], b, now, window);
    } else {
      assert a + b == b;
    }
  }

  lemma {:induction false} WindowCountOfAppend(h: seq<int>, x: int, from: int, window: int)
    ensures WindowCount(h + [x], from, window)
         == WindowCount(h, from, window) + if from <= x <= from + window then 1 else 0
    decreases |h|
  {
    if h != [] {
      assert (h + [x])[1..] == h[1..] + [x];
      WindowCountOfAppend(h[1..], x, from, window);
    } else {
      assert [] + [x] == [x];
    }
  }

  /** An interval ending no earlier than `now` counts only entries the purge at `now` keeps. */
  lemma {:induction false} WindowCountAtMostRecent(h: seq<int>, from: int, now: int, window: int)
    requires now <= from + window
    ensures WindowCount(h, from, window) <= |Recent(h, now, window)|
    decreases |h|
  {
    if h != [] {
      WindowCountAtMostRecent(h[1..], from, now, window);
    }
  }

  /** Admitting at `now` while fewer than `maxRequests` recent entries exist keeps the window bound. */
  lemma AdmitKeepsWindowBound(h: seq<int>, now: int, maxRequests: int, window: int)
    requires WindowBounded(h, maxRequests, window)
    requires 0 < maxRequests
    requires window >= 0 ==> |Recent(h, now, window)| < maxRequests
    ensures WindowBounded(h + [now], maxRequests, window)
  {
    forall from ensures WindowCount(h + [now], from, window) <= Quota(maxRequests) {
      WindowCountOfAppend(h, now, from, window);
      if from <= now <= from + window {
        WindowCountAtMostRecent(h, from, now, window);
      }
    }
  }

  /** One admission check at a non-earlier instant keeps a replayed state consistent. */
  lemma StepKeepsConsistent(t: Trace, clock: int, now: int, maxRequests: int, window: int)
    requires Consistent(t, clock, maxRequests, window) && clock <= now
    ensures Consistent(Next(t, now, maxRequests, window), now, maxRequests, window)
  {
    var d := Step(t.requests, now, maxRequests, window);
    var admitted := t.admitted + if d.admitted then [now] else [];
    StepKeepsSorted(t.requests, now, maxRequests, window);
    AdmittedStaySorted(t.admitted, clock, now, d.admitted);
    assert |d.requests| <= Quota(maxRequests);
    if window >= 0 {
      StepMatchesRecent(t, clock, now, maxRequests, window);
    }
    if d.admitted {
      AdmitKeepsWindowBound(t.admitted, now, maxRequests, window);
    } else {
      assert admitted == t.admitted;
    }
  }

  lemma AdmittedStaySorted(h: seq<int>, clock: int, now: int, admit: bool)
    requires Sorted(h) && AllAtMost(h, clock) && clock <= now
    ensures var h' := h + if admit then [now] else [];
      Sorted(h') && AllAtMost(h', now)
  {
  }

  /** With a non-negative window the deque after a step is the recent part of the admissions. */
  lemma StepMatchesRecent(t: Trace, clock: int, now: int, maxRequests: int, window: int)
    requires window >= 0 && clock <= now
    requires Sorted(t.requests) && t.requests == Recent(t.admitted, clock, window)
    ensures var d := Step(t.requests, now, maxRequests, window);
      d.requests == Recent(t.admitted + if d.admitted then [now] else [], now, window)
      && |Recent(t.admitted, now, window)| == |Purge(t.requests, now, window)|
  {
    var d := Step(t.requests, now, maxRequests, window);
    PurgeOfSortedIsRecent(t.requests, now, window);
    RecentOfRecent(t.admitted, clock, now, window);
    assert Purge(t.requests, now, window) == Recent(t.admitted, now, window);
    if d.admitted {
      RecentOfConcat(t.admitted, [now], now, window);
      assert Recent([now], now, window) == [now];
    } else {
      assert t.admitted + [] == t.admitted;
    }
  }

  /**
   * The sliding-window guarantee: over any log of calls whose instants never
   * go backwards, no closed interval of one window's length holds more
   * admitted calls than the quota, and the deque never holds more entries
   * than the quota.
   */
  lemma {:induction false} ReplayIsConsistent(calls: seq<int>, maxRequests: int, window: int)
    requires Sorted(calls) && calls != []
    ensures Consistent(Replay(calls, maxRequests, window), calls[|calls| - 1], maxRequests, window)
    decreases |calls|
  {
    var init := calls[..|calls| - 1];
    var now := calls[|calls| - 1];
    if init == [] {
      assert Consistent(Trace([], []), now, maxRequests, window);
      StepKeepsConsistent(Trace([], []), now, now, maxRequests, window);
    } else {
      ReplayIsConsistent(init, maxRequests, window);
      StepKeepsConsistent(Replay(init, maxRequests, window), init[|init| - 1], now, maxRequests, window);
    }
  }

  /** The headline property, on its own: admissions per closed window never exceed the quota. */
  lemma ReplayIsWindowBounded(calls: seq<int>, maxRequests: int, window: int)
    requires Sorted(calls)
    ensures WindowBounded(Replay(calls, maxRequests, window).admitted, maxRequests, window)
    ensures |Replay(calls, maxRequests, window).requests| <= Quota(maxRequests)
  {
    if calls != [] {
      ReplayIsConsistent(calls, maxRequests, window);
    }
  }

  /**
   * The bound needs the instants in clock order. A call that reads the clock
   * before taking the lock can reach the purge after a later instant was
   * appended; with two slots and a ten-second window, the calls 0 s, 0.4 s,
   * 10.5 s and then 5 s are all admitted, three of them within ten seconds.
   */
  lemma OutOfOrderInstantsBreakWindowBound()
    ensures var w := 10 * MicrosPerSecond;
      var t := Replay([0, 400_000, 10_500_000, 5_000_000], 2, w);
      && t.admitted == [0, 400_000, 10_500_000, 5_000_000]
      && WindowCount(t.admitted, 0, w) == 3
      && !WindowBounded(t.admitted, 2, w)
  {
    var w := 10 * MicrosPerSecond;
    OutOfOrderReplay();
    assert WindowCount([0, 400_000, 10_500_000, 5_000_000], 0, w) == 3;
  }

  /** The four calls of the example above, replayed one step at a time. */
  lemma OutOfOrderReplay()
    ensures Replay([0, 400_000, 10_500_000, 5_000_000], 2, 10 * MicrosPerSecond).admitted
         == [0, 400_000, 10_500_000, 5_000_000]
  {
    var w := 10 * MicrosPerSecond;
    assert [] + [0] == [0] && [0] + [400_000] == [0, 400_000];
    assert [0, 400_000] + [10_500_000] == [0, 400_000, 10_500_000];
    assert [0, 400_000, 10_500_000] + [5_000_000] == [0, 400_000, 10_500_000, 5_000_000];
    ReplaySnoc([], 0, 2, w);
    assert Replay([0], 2, w) == Trace([0], [0]);
    ReplaySnoc([0], 400_000, 2, w);
    assert Purge([0], 400_000, w) == [0];
    assert Replay([0, 400_000], 2, w) == Trace([0, 400_000], [0, 400_000]);
    ReplaySnoc([0, 400_000], 10_500_000, 2, w);
    assert Purge([0, 400_000], 10_500_000, w) == [];
    assert Replay([0, 400_000, 10_500_000], 2, w) == Trace([10_500_000], [0, 400_000, 10_500_000]);
    ReplaySnoc([0, 400_000, 10_500_000], 5_000_000, 2, w);
    assert Purge([10_500_000], 5_000_000, w) == [10_500_000];
  }

  /** Replaying one more call is one more `Next`, whatever the order of the instants. */
  lemma ReplaySnoc(calls: seq<int>, now: int, maxRequests: int, window: int)
    ensures Replay(calls + [now], maxRequests, window) == Next(Replay(calls, maxRequests, window), now, maxRequests, window)
  {
    assert (calls + [now])[..|calls|] == calls;
  }

  /** Extending the log by one call is one more step on the replayed state. */
  lemma ReplayExtend(calls: seq<int>, now: int, maxRequests: int, window: int)
    requires Sorted(calls) && (calls == [] || calls[|calls| - 1] <= now)
    ensures Sorted(calls + [now])
    ensures Replay(calls + [now], maxRequests, window) == Next(Replay(calls, maxRequests, window), now, maxRequests, window)
    ensures WindowBounded(Replay(calls + [now], maxRequests, window).admitted, maxRequests, window)
    ensures |Replay(calls + [now], maxRequests, window).requests| <= Quota(maxRequests)
  {
    SortedAppend(calls, now);
    assert (calls + [now])[..|calls|] == calls;
    ReplayIsWindowBounded(calls + [now], maxRequests, window);
  }

  /** A limiter that never admits: with no slots every call is rejected. */
  lemma {:induction false} ZeroQuotaNeverAdmits(calls: seq<int>, window: int)
    ensures Replay(calls, 0, window) == Trace([], [])
    decreases |calls|
  {
    if calls != [] {
      ZeroQuotaNeverAdmits(calls[..|calls| - 1], window);
    }
  }

  /** One tool's limiter: the deque of admitted instants still inside the window, oldest first. */
  class RateLimiter {
    const maxRequests: int
    const timeWindowSeconds: int
    var requests: seq<int>

    /** Every instant at which the limiter was asked, oldest first. */
    ghost var calls: seq<int>
    /** Every instant at which it admitted, oldest first. */
    ghost var admitted: seq<int>

    function Window(): int {
      timeWindowSeconds * MicrosPerSecond
    }

    ghost predicate Valid()
      reads this
    {
      && Sorted(calls)
      && Replay(calls, maxRequests, Window()) == Trace(requests, admitted)
    }

    /** Calls reach the limiter in clock order: no instant is earlier than the last one seen. */
    ghost predicate CanCallAt(now: int)
      reads this
    {
      calls == [] || calls[|calls| - 1] <= now
    }

    constructor (maxRequests: int, timeWindowSeconds: int)
      ensures Valid()
      ensures this.maxRequests == maxRequests && this.timeWindowSeconds == timeWindowSeconds
      ensures requests == [] && calls == [] && admitted == []
    {
      this.maxRequests := maxRequests;
      this.timeWindowSeconds := timeWindowSeconds;
      requests := [];
      calls := [];
      admitted := [];
    }

    /**
     * Purges stale entries, then admits `now` if a slot is free. The new
     * state is the replay of the extended call log, so the window bound
     * holds of every admission made so far.
     */
    method CanMakeRequest(now: int) returns (ok: bool)
      requires Valid() && CanCallAt(now)
      modifies this
      ensures Valid()
      ensures Decision(ok, requests) == Step(old(requests), now, maxRequests, Window())
      ensures calls == old(calls) + [now]
      ensures admitted == old(admitted) + if ok then [now] else []
      ensures |requests| <= Quota(maxRequests)
      ensures WindowBounded(admitted, maxRequests, Window())
    {
      while requests != [] && now - requests[0] > Window()
        invariant Purge(requests, now, Window()) == Purge(old(requests), now, Window())
        invariant calls == old(calls) && admitted == old(admitted)
        decreases |requests|
      {
        requests := requests[1..];
      }
      ReplayExtend(calls, now, maxRequests, Window());
      ok := |requests| < maxRequests;
      if ok {
        requests := requests + [now];
      }
      calls := calls + [now];
      admitted := admitted + if ok then [now] else [];
    }
  }

  /** The process-wide map from tool name to its limiter. */
  class Registry {
    var limiters: map<string, RateLimiter>

    /** Every registered limiter is in a consistent state, and no two names share one. */
    ghost predicate Valid()
      reads this, limiters.Values
    {
      && (forall name :: name in limiters ==> limiters[name].Valid())
      && (forall a, b :: a in limiters && b in limiters && a != b ==> limiters[a] != limiters[b])
    }

    constructor ()
      ensures Valid() && limiters == map[]
    {
      limiters := map[];
    }

    /**
     * Returns the limiter already registered under `toolName`, ignoring the
     * limits passed now; otherwise registers and returns a fresh limiter
     * built from them. No other entry changes.
     */
    method GetRateLimiter(toolName: string, maxRequests: int, timeWindowSeconds: int)
      returns (limiter: RateLimiter)
      requires Valid()
      modifies this
      ensures Valid()
      ensures toolName in limiters && limiters[toolName] == limiter && limiter.Valid()
      ensures toolName in old(limiters) ==> limiter == old(limiters)[toolName] && limiters == old(limiters)
      ensures toolName !in old(limiters) ==>
        && fresh(limiter)
        && limiter.maxRequests == maxRequests && limiter.timeWindowSeconds == timeWindowSeconds
        && limiter.requests == [] && limiter.calls == []
        && limiters == old(limiters)[toolName := limiter]
    {
      if toolName !in limiters {
        var created := new RateLimiter(maxRequests, timeWindowSeconds);
        limiters := limiters[toolName := created];
      }
      limiter := limiters[toolName];
    }
  }
}
