/** The fixed-window rate limiter of runtime/limits/rateLimiter.ts. */
module RateLimiter {
  import opened Wrappers
  import opened Sequences

  const WINDOW_MS := 60_000

  datatype Tier = Free | Pro

  datatype Window = Window(count: int, resetAt: int)

  datatype RateLimitDecision = RateLimitDecision(allowed: bool, limit: int, remaining: int, resetAt: int)

  type Windows = map<string, Window>

  datatype Limits = Limits(free: int, pro: int)
  {
    function Of(tier: Tier): int {
      match tier
      case Free => free
      case Pro => pro
    }
  }

  datatype Call = Call(apiKey: string, tier: Tier, nowMs: int)

  function Opens(windows: Windows, apiKey: string, nowMs: int): bool {
    apiKey !in windows || nowMs >= windows[apiKey].resetAt
  }

  function Decide(windows: Windows, limits: Limits, call: Call): (Windows, RateLimitDecision) {
    var limit := limits.Of(call.tier);
    if Opens(windows, call.apiKey, call.nowMs) then
      var resetAt := call.nowMs + WINDOW_MS;
      (windows[call.apiKey := Window(1, resetAt)], RateLimitDecision(true, limit, limit - 1, resetAt))
    else
      var current := windows[call.apiKey];
      if current.count >= limit then (windows, RateLimitDecision(false, limit, 0, current.resetAt))
      else
        (windows[call.apiKey := current.(count := current.count + 1)],
         RateLimitDecision(true, limit, limit - (current.count + 1), current.resetAt))
  }

  class InMemoryRateLimiter {
    var windows: Windows
    const limits: Limits

    /** Limits that are not given are 100 for the free tier and 1000 for the paid one. */
    constructor (free: Option<int>, pro: Option<int>)
      ensures windows == map[]
      ensures limits.free == if free.Some? then free.value else 100
      ensures limits.pro == if pro.Some? then pro.value else 1000
    {
      limits := Limits(free.GetOr(100), pro.GetOr(1000));
      windows := map[];
    }

    method Check(apiKey: string, tier: Tier, nowMs: int) returns (decision: RateLimitDecision)
      modifies this
      ensures (windows, decision) == Decide(old(windows), limits, Call(apiKey, tier, nowMs))
    {
      var limit := limits.Of(tier);
      if apiKey !in windows || nowMs >= windows[apiKey].resetAt {
        var resetAt := nowMs + WINDOW_MS;
        windows := windows[apiKey := Window(1, resetAt)];
        return RateLimitDecision(true, limit, limit - 1, resetAt);
      }
      var current := windows[apiKey];
      if current.count >= limit {
        return RateLimitDecision(false, limit, 0, current.resetAt);
      }
      current := current.(count := current.count + 1);
      windows := windows[apiKey := current];
      decision := RateLimitDecision(true, limit, limit - current.count, current.resetAt);
    }
  }

  // ---------------------------------------------------------------- runs

  function After(limits: Limits, calls: seq<Call>): Windows {
    if calls == [] then map[] else Decide(After(limits, DropLast(calls)), limits, Last(calls)).0
  }

  /** The decision taken on call `i` of the run. */
  function Verdict(limits: Limits, calls: seq<Call>, i: nat): RateLimitDecision
    requires i < |calls|
  {
    Decide(After(limits, calls[..i]), limits, calls[i]).1
  }

  /** Calls of the key admitted at a time in [start, end). */
  function AdmittedIn(limits: Limits, calls: seq<Call>, apiKey: string, start: int, end: int): nat {
    if calls == [] then 0
    else
      var call := Last(calls);
      AdmittedIn(limits, DropLast(calls), apiKey, start, end) +
      if call.apiKey == apiKey && start <= call.nowMs < end
         && Decide(After(limits, DropLast(calls)), limits, call).1.allowed then 1 else 0
  }

  ghost predicate ClockMonotone(calls: seq<Call>) {
    forall i, j :: 0 <= i <= j < |calls| ==> calls[i].nowMs <= calls[j].nowMs
  }

  ghost predicate LimitedBy(limits: Limits, calls: seq<Call>, apiKey: string, bound: int) {
    forall c :: c in calls && c.apiKey == apiKey ==> limits.Of(c.tier) <= bound
  }

  function Max(a: int, b: int): int {
    if a < b then b else a
  }

  lemma MonotonePrefix(calls: seq<Call>)
    requires calls != [] && ClockMonotone(calls)
    ensures ClockMonotone(DropLast(calls))
    ensures forall c :: c in DropLast(calls) ==> c.nowMs <= Last(calls).nowMs
  {
    forall c | c in DropLast(calls) ensures c.nowMs <= Last(calls).nowMs {
      var i :| 0 <= i < |calls| - 1 && calls[i] == c;
    }
  }

  /** Where the calls admitted since `start` can be, given the key's current window: all of them after the
      window's opening call if it opened before `start`, in it and its predecessor if it opened inside. */
  ghost predicate Accounted(windows: Windows, apiKey: string, admitted: nat, start: int, now: int, cap: int) {
    if apiKey !in windows then admitted == 0
    else
      var w := windows[apiKey];
      var openedAt := w.resetAt - WINDOW_MS;
      && 1 <= w.count <= cap
      && openedAt <= now
      && if now < start then admitted == 0
         else if openedAt < start then admitted <= w.count - 1
         else if openedAt < start + WINDOW_MS then admitted <= cap - 1 + w.count
         else admitted <= 2 * cap - 1
  }

  lemma {:induction false} RunIsAccounted(limits: Limits, calls: seq<Call>, apiKey: string, start: int, bound: int)
    requires calls != [] && ClockMonotone(calls) && LimitedBy(limits, calls, apiKey, bound)
    ensures Accounted(After(limits, calls), apiKey, AdmittedIn(limits, calls, apiKey, start, start + WINDOW_MS),
                      start, Last(calls).nowMs, Max(1, bound))
  {
    MonotonePrefix(calls);
    var call, front := Last(calls), DropLast(calls);
    assert call in calls;
    if front != [] {
      RunIsAccounted(limits, front, apiKey, start, bound);
      assert Last(front) in front;
    }
  }

  /** Any half-open interval of one window length admits fewer than twice the limit: at most
      2 * max(1, limit) - 1 calls of a key, for any bound on the limits of the tiers the key used. */
  lemma SlidingBound(limits: Limits, calls: seq<Call>, apiKey: string, start: int, bound: int)
    requires ClockMonotone(calls) && LimitedBy(limits, calls, apiKey, bound)
    ensures AdmittedIn(limits, calls, apiKey, start, start + WINDOW_MS) <= 2 * Max(1, bound) - 1
  {
    if calls != [] {
      RunIsAccounted(limits, calls, apiKey, start, bound);
    }
  }

  /** The window a call falls into, named by the time it opened. */
  function WindowOf(limits: Limits, calls: seq<Call>): int
    requires calls != []
  {
    After(limits, calls)[Last(calls).apiKey].resetAt - WINDOW_MS
  }

  function AdmittedInWindow(limits: Limits, calls: seq<Call>, apiKey: string, openedAt: int): nat {
    if calls == [] then 0
    else
      AdmittedInWindow(limits, DropLast(calls), apiKey, openedAt) +
      if Last(calls).apiKey == apiKey && WindowOf(limits, calls) == openedAt
         && Decide(After(limits, DropLast(calls)), limits, Last(calls)).1.allowed then 1 else 0
  }

  /** The counter of a window is the number of calls it has admitted, and no window admits more than the
      limit (or one, if the limit is below one). */
  lemma {:induction false} WindowBound(limits: Limits, calls: seq<Call>, apiKey: string, openedAt: int, bound: int)
    requires ClockMonotone(calls) && LimitedBy(limits, calls, apiKey, bound)
    ensures AdmittedInWindow(limits, calls, apiKey, openedAt) <= Max(1, bound)
    ensures apiKey in After(limits, calls) && After(limits, calls)[apiKey].resetAt - WINDOW_MS == openedAt ==>
              After(limits, calls)[apiKey].count == AdmittedInWindow(limits, calls, apiKey, openedAt)
    ensures apiKey !in After(limits, calls) || After(limits, calls)[apiKey].resetAt - WINDOW_MS < openedAt ==>
              AdmittedInWindow(limits, calls, apiKey, openedAt) == 0
    ensures apiKey in After(limits, calls) ==>
              calls != [] && After(limits, calls)[apiKey].resetAt - WINDOW_MS <= Last(calls).nowMs
  {
    if calls != [] {
      MonotonePrefix(calls);
      var front := DropLast(calls);
      assert Last(calls) in calls;
      WindowBound(limits, front, apiKey, openedAt, bound);
      if front != [] {
        assert Last(front) in front;
      }
    }
  }

  /** A call is admitted exactly when it opens a window or its window has admitted fewer calls than the
      limit of its tier; `remaining` and `resetAt` report that window. */
  lemma AdmissionIsExact(limits: Limits, calls: seq<Call>, bound: int)
    requires calls != [] && ClockMonotone(calls) && LimitedBy(limits, calls, Last(calls).apiKey, bound)
    ensures var before, call := After(limits, DropLast(calls)), Last(calls);
            var decision := Decide(before, limits, call).1;
            var window := WindowOf(limits, calls);
            var limit := if call.tier == Pro then limits.pro else limits.free;
            && (decision.allowed <==>
                  || call.apiKey !in before || before[call.apiKey].resetAt <= call.nowMs
                  || AdmittedInWindow(limits, DropLast(calls), call.apiKey, window) < limit)
            && decision.limit == limit
            && decision.resetAt == window + WINDOW_MS
            && window <= call.nowMs < decision.resetAt
            && (decision.allowed ==>
                  decision.remaining == limit - AdmittedInWindow(limits, calls, call.apiKey, window))
            && (!decision.allowed ==> decision.remaining == 0)
  {
    MonotonePrefix(calls);
    WindowBound(limits, calls, Last(calls).apiKey, WindowOf(limits, calls), bound);
    WindowBound(limits, DropLast(calls), Last(calls).apiKey, WindowOf(limits, calls), bound);
    if DropLast(calls) != [] {
      assert Last(DropLast(calls)) in DropLast(calls);
    }
  }

  /** What a call does, whatever the clock does: without a window, or past its end, it opens one of 60,000 ms and is
      admitted; inside a window it is counted while the count is below the limit of its tier. Other keys keep their
      windows. */
  lemma CallSays(windows: Windows, limits: Limits, call: Call)
    ensures var (after, decision) := Decide(windows, limits, call);
            var limit := if call.tier == Pro then limits.pro else limits.free;
            && decision.limit == limit
            && (forall k :: k != call.apiKey ==>
                (k in after <==> k in windows) && (k in windows ==> after[k] == windows[k]))
            && call.apiKey in after && decision.resetAt == after[call.apiKey].resetAt
            && if call.apiKey !in windows || windows[call.apiKey].resetAt <= call.nowMs
               then
                 && decision.allowed && decision.remaining == limit - 1
                 && after[call.apiKey] == Window(1, call.nowMs + 60_000)
               else
                 var count := windows[call.apiKey].count;
                 && (decision.allowed <==> count < limit)
                 && decision.remaining == (if count < limit then limit - count - 1 else 0)
                 && after[call.apiKey].resetAt == windows[call.apiKey].resetAt
                 && after[call.apiKey].count == if count < limit then count + 1 else count
  {
  }

  /** A denial leaves every window as it was. */
  lemma DenialsMoveNothing(windows: Windows, limits: Limits, call: Call)
    requires !Decide(windows, limits, call).1.allowed
    ensures Decide(windows, limits, call).0 == windows
    ensures call.apiKey in windows && windows[call.apiKey].count >= limits.Of(call.tier)
            && call.nowMs < windows[call.apiKey].resetAt == Decide(windows, limits, call).1.resetAt
  {
  }

  function OwnCalls(calls: seq<Call>, apiKey: string): seq<Call> {
    Filter(calls, (c: Call) => c.apiKey == apiKey)
  }

  /** A key's window depends on the key's own calls only. */
  lemma {:induction false} KeysDoNotInterfere(limits: Limits, calls: seq<Call>, apiKey: string)
    ensures apiKey in After(limits, calls) <==> apiKey in After(limits, OwnCalls(calls, apiKey))
    ensures apiKey in After(limits, calls) ==>
              After(limits, calls)[apiKey] == After(limits, OwnCalls(calls, apiKey))[apiKey]
  {
    if calls != [] {
      KeysDoNotInterfere(limits, DropLast(calls), apiKey);
      if Last(calls).apiKey == apiKey {
        assert DropLast(OwnCalls(calls, apiKey)) == OwnCalls(DropLast(calls), apiKey);
      } else {
        assert OwnCalls(calls, apiKey) == OwnCalls(DropLast(calls), apiKey);
      }
    }
  }

  /** So a call's verdict is the one it would get if only its key had ever called. */
  lemma VerdictDependsOnOwnCalls(limits: Limits, calls: seq<Call>, i: nat)
    requires i < |calls|
    ensures Verdict(limits, calls, i) ==
            Decide(After(limits, OwnCalls(calls[..i], calls[i].apiKey)), limits, calls[i]).1
  {
    KeysDoNotInterfere(limits, calls[..i], calls[i].apiKey);
  }

  // ---------------------------------------------------------------- the sliding bound is sharp

  function Repeat(call: Call, n: nat): seq<Call> {
    if n == 0 then [] else Repeat(call, n - 1) + [call]
  }

  /** One call at 0, then limit - 1 calls at 59999, then limit calls at 60000. */
  function Burst(apiKey: string, limit: nat): seq<Call>
    requires limit >= 1
  {
    [Call(apiKey, Free, 0)] + Repeat(Call(apiKey, Free, WINDOW_MS - 1), limit - 1)
      + Repeat(Call(apiKey, Free, WINDOW_MS), limit)
  }

  ghost predicate ReachesState(
      limits: Limits, calls: seq<Call>, apiKey: string, window: Window, admitted: nat, now: int) {
    && After(limits, calls) == map[apiKey := window]
    && AdmittedIn(limits, calls, apiKey, 1, 1 + WINDOW_MS) == admitted
    && ClockMonotone(calls)
    && forall c :: c in calls ==> c.nowMs <= now
  }

  /** A call admitted inside the interval moves the state on by one. */
  lemma AdmittedStep(limits: Limits, calls: seq<Call>, apiKey: string, window: Window, admitted: nat, now: int)
    requires ReachesState(limits, calls, apiKey, window, admitted, now)
    requires 1 <= now < 1 + WINDOW_MS
    requires now >= window.resetAt || window.count < limits.free
    ensures ReachesState(limits, calls + [Call(apiKey, Free, now)], apiKey,
                         if now >= window.resetAt then Window(1, now + WINDOW_MS)
                            else Window(window.count + 1, window.resetAt),
                         admitted + 1, now)
  {
    assert DropLast(calls + [Call(apiKey, Free, now)]) == calls;
  }

  lemma FirstCall(limits: Limits, apiKey: string)
    ensures ReachesState(limits, [Call(apiKey, Free, 0)], apiKey, Window(1, WINDOW_MS), 0, WINDOW_MS - 1)
  {
    var first := [Call(apiKey, Free, 0)];
    assert DropLast(first) == [] && Last(first) == Call(apiKey, Free, 0);
    assert After(limits, []) == map[];
    assert After(limits, first) == Decide(map[], limits, Last(first)).0;
  }

  lemma OneMoreInWindow(
      limits: Limits, calls: seq<Call>, apiKey: string, n: nat, resetAt: int, admitted: nat, now: int)
    requires n < limits.free && 1 <= now < 1 + WINDOW_MS && now < resetAt
    requires ReachesState(limits, calls, apiKey, Window(n, resetAt), admitted, now)
    ensures ReachesState(limits, calls + [Call(apiKey, Free, now)], apiKey, Window(n + 1, resetAt), admitted + 1, now)
  {
    AdmittedStep(limits, calls, apiKey, Window(n, resetAt), admitted, now);
  }

  lemma {:induction false} FirstWindowFills(limits: Limits, apiKey: string, n: nat)
    requires n + 1 <= limits.free
    ensures ReachesState(limits, [Call(apiKey, Free, 0)] + Repeat(Call(apiKey, Free, WINDOW_MS - 1), n),
                         apiKey, Window(n + 1, WINDOW_MS), n, WINDOW_MS - 1)
  {
    var first := [Call(apiKey, Free, 0)];
    if n == 0 {
      FirstCall(limits, apiKey);
      assert first + Repeat(Call(apiKey, Free, WINDOW_MS - 1), 0) == first;
    } else {
      var call := Call(apiKey, Free, WINDOW_MS - 1);
      FirstWindowFills(limits, apiKey, n - 1);
      OneMoreInWindow(limits, first + Repeat(call, n - 1), apiKey, n, WINDOW_MS, n - 1, WINDOW_MS - 1);
      assert first + Repeat(call, n) == first + Repeat(call, n - 1) + [call];
    }
  }

  /** The calls of the first window. */
  function FirstBurst(apiKey: string, limit: nat): seq<Call>
    requires limit >= 1
  {
    [Call(apiKey, Free, 0)] + Repeat(Call(apiKey, Free, WINDOW_MS - 1), limit - 1)
  }

  lemma SecondWindowOpens(limits: Limits, apiKey: string)
    requires limits.free >= 1
    ensures ReachesState(limits, FirstBurst(apiKey, limits.free) + [Call(apiKey, Free, WINDOW_MS)],
                         apiKey, Window(1, 2 * WINDOW_MS), limits.free, WINDOW_MS)
  {
    FirstWindowFills(limits, apiKey, limits.free - 1);
    AdmittedStep(limits, FirstBurst(apiKey, limits.free), apiKey, Window(limits.free, WINDOW_MS), limits.free - 1,
                 WINDOW_MS);
  }

  lemma {:induction false} SecondWindowFills(limits: Limits, apiKey: string, n: nat)
    requires 1 <= n <= limits.free
    ensures ReachesState(limits, FirstBurst(apiKey, limits.free) + Repeat(Call(apiKey, Free, WINDOW_MS), n),
                         apiKey, Window(n, 2 * WINDOW_MS), limits.free - 1 + n, WINDOW_MS)
  {
    var head, call := FirstBurst(apiKey, limits.free), Call(apiKey, Free, WINDOW_MS);
    if n == 1 {
      SecondWindowOpens(limits, apiKey);
      assert Repeat(call, 1) == Repeat(call, 0) + [call] == [call];
    } else {
      SecondWindowFills(limits, apiKey, n - 1);
      OneMoreInWindow(limits, head + Repeat(call, n - 1), apiKey, n - 1, 2 * WINDOW_MS, limits.free - 2 + n, WINDOW_MS);
      assert head + Repeat(call, n) == head + Repeat(call, n - 1) + [call];
    }
  }

  /** For every limit some run reaches the bound. */
  lemma SlidingBoundIsSharp(limits: Limits, apiKey: string)
    requires limits.free >= 1
    ensures ClockMonotone(Burst(apiKey, limits.free))
    ensures AdmittedIn(limits, Burst(apiKey, limits.free), apiKey, 1, 1 + WINDOW_MS) == 2 * limits.free - 1
  {
    SecondWindowFills(limits, apiKey, limits.free);
  }
}
