/** Two sliding-log limiters, one that filters its log and one that shifts it from the front. */
module SlidingLog {
  import opened Clocks

  /** The times still inside the window that ends now. */
  function Recent(log: seq<int>, now: int, window: int): seq<int> {
    if log == [] then []
    else (if log[0] > now - window then [log[0]] else []) + Recent(log[1..], now, window)
  }

  /** The log without its leading times that have left the window. */
  function Shifted(log: seq<int>, now: int, window: int): seq<int> {
    if log == [] || log[0] > now - window then log else Shifted(log[1..], now, window)
  }

  // ---- the limiters -------------------------------------------------------------------------------------------

  /** The tool limiter: a log per key; a refused call leaves it as it was. */
  class ToolRateLimiter {
    var buckets: map<string, seq<int>>

    constructor ()
      ensures buckets == map[]
    {
      buckets := map[];
    }

    function Bucket(key: string): seq<int>
      reads this
    {
      if key in buckets then buckets[key] else []
    }

    method Consume(key: string, limit: int, window: int, now: int) returns (accepted: bool)
      modifies this
      ensures accepted == FilterAccepts(old(Bucket(key)), limit, window, now)
      ensures Bucket(key) == FilterLog(old(Bucket(key)), limit, window, now)
      ensures forall other :: other != key ==> Bucket(other) == old(Bucket(other))
    {
      var active := Recent(Bucket(key), now, window);
      if |active| >= limit { return false; }
      active := active + [now];
      buckets := buckets[key := active];
      return true;
    }
  }

  /** The widget's limiter: one log, shifted before each call is judged. */
  class PublicApiClient {
    const limit: int
    const window: int
    var calls: seq<int>

    constructor (limit: int, window: int)
      ensures this.limit == limit && this.window == window && calls == []
    {
      this.limit, this.window, calls := limit, window, [];
    }

    method Request(now: int) returns (accepted: bool)
      modifies this
      ensures accepted == ShiftAccepts(old(calls), limit, window, now)
      ensures calls == ShiftLog(old(calls), limit, window, now)
    {
      while calls != [] && calls[0] <= now - window
        invariant Shifted(calls, now, window) == Shifted(old(calls), now, window)
        decreases |calls|
      {
        calls := calls[1..];
      }
      if |calls| >= limit { return false; }
      calls := calls + [now];
      return true;
    }
  }

  predicate FilterAccepts(log: seq<int>, limit: int, window: int, now: int) { |Recent(log, now, window)| < limit }

  function FilterLog(log: seq<int>, limit: int, window: int, now: int): seq<int> {
    if FilterAccepts(log, limit, window, now) then Recent(log, now, window) + [now] else log
  }

  predicate ShiftAccepts(log: seq<int>, limit: int, window: int, now: int) { |Shifted(log, now, window)| < limit }

  function ShiftLog(log: seq<int>, limit: int, window: int, now: int): seq<int> {
    Shifted(log, now, window) + if ShiftAccepts(log, limit, window, now) then [now] else []
  }

  // ---- histories of calls -----------------------------------------------------------------------------------------

  /** What a limiter has decided: each call's verdict, and all the times it accepted. */
  datatype History = History(verdicts: seq<bool>, accepted: seq<int>)

  function Judge(h: History, verdict: bool, now: int): History {
    History(h.verdicts + [verdict], if verdict then h.accepted + [now] else h.accepted)
  }

  function FilterRun(log: seq<int>, h: History, times: seq<int>, limit: int, window: int): History
    decreases |times|
  {
    if |times| == 0 then h
    else
      FilterRun(FilterLog(log, limit, window, times[0]), Judge(h, FilterAccepts(log, limit, window, times[0]), times[0]),
                times[1..], limit, window)
  }

  function ShiftRun(log: seq<int>, h: History, times: seq<int>, limit: int, window: int): History
    decreases |times|
  {
    if |times| == 0 then h
    else
      ShiftRun(ShiftLog(log, limit, window, times[0]), Judge(h, ShiftAccepts(log, limit, window, times[0]), times[0]),
               times[1..], limit, window)
  }

  /** The rule itself, which forgets nothing: a call is accepted when fewer than `limit` accepted calls lie in the
      window that ends with it. */
  function RuleRun(h: History, times: seq<int>, limit: int, window: int): History
    decreases |times|
  {
    if |times| == 0 then h
    else RuleRun(Judge(h, |Recent(h.accepted, times[0], window)| < limit, times[0]), times[1..], limit, window)
  }

  predicate UpTo(times: seq<int>, now: int) { forall t <- times :: t <= now }

  // ---- windows of logs --------------------------------------------------------------------------------------------

  lemma {:induction false} RecentAppend(a: seq<int>, b: seq<int>, now: int, window: int)
    ensures Recent(a + b, now, window) == Recent(a, now, window) + Recent(b, now, window)
  {
    if a == [] {
      assert a + b == b;
    } else {
      assert (a + b)[1..] == a[1..] + b;
      RecentAppend(a[1..], b, now, window);
    }
  }

  lemma {:induction false} RecentOfRecent(log: seq<int>, earlier: int, now: int, window: int)
    requires earlier <= now
    ensures Recent(Recent(log, earlier, window), now, window) == Recent(log, now, window)
  {
    if log == [] {
    } else {
      RecentOfRecent(log[1..], earlier, now, window);
      RecentAppend(if log[0] > earlier - window then [log[0]] else [], Recent(log[1..], earlier, window), now, window);
    }
  }

  /** On a sorted log, dropping from the front is filtering. */
  lemma {:induction false} ShiftedIsRecent(log: seq<int>, now: int, window: int)
    requires NonDecreasing(log)
    ensures Shifted(log, now, window) == Recent(log, now, window)
  {
    if log == [] {
    } else if log[0] > now - window {
      AllRecent(log, now, window);
    } else {
      ShiftedIsRecent(log[1..], now, window);
    }
  }

  lemma {:induction false} AllRecent(log: seq<int>, now: int, window: int)
    requires forall t <- log :: t > now - window
    ensures Recent(log, now, window) == log
  {
    if log != [] {
      assert log[0] in log && forall t <- log[1..] :: t in log;
      AllRecent(log[1..], now, window);
    }
  }

  lemma OrderedFromFront(log: seq<int>)
    requires NonDecreasing(log) && log != []
    ensures forall t <- log[1..] :: log[0] <= t
  {}

  lemma PrependKeepsOrder(t: int, log: seq<int>)
    ensures NonDecreasing(log) && (forall u <- log :: t <= u) ==> NonDecreasing([t] + log)
  {
    assert forall i :: 0 <= i < |log| ==> log[i] in log;
  }

  lemma {:induction false} RecentHolds(log: seq<int>, now: int, window: int)
    requires NonDecreasing(log)
    ensures NonDecreasing(Recent(log, now, window))
    ensures forall t <- Recent(log, now, window) :: t in log && t > now - window
    ensures |Recent(log, now, window)| <= |log|
  {
    if log != [] {
      RecentHolds(log[1..], now, window);
      OrderedFromFront(log);
      PrependKeepsOrder(log[0], Recent(log[1..], now, window));
      var rest := Recent(log[1..], now, window);
      assert forall t <- rest :: t in log[1..];
      assert log[0] in log && forall t <- log[1..] :: t in log;
      assert [log[0]] + rest == Recent(log, now, window) || rest == Recent(log, now, window);
      hide Recent, NonDecreasing;
    }
  }

  lemma AppendKeepsOrder(log: seq<int>, now: int)
    requires NonDecreasing(log) && UpTo(log, now)
    ensures NonDecreasing(log + [now]) && UpTo(log + [now], now)
  {
    forall i, j | 0 <= i <= j < |log + [now]| ensures (log + [now])[i] <= (log + [now])[j] {
      assert i < |log| ==> log[i] in log;
    }
  }

  // ---- the limiters follow the rule -------------------------------------------------------------------------------

  predicate Ready(h: History, now: int) {
    NonDecreasing(h.accepted) && UpTo(h.accepted, now)
  }

  lemma JudgeKeepsReady(h: History, verdict: bool, now: int, later: int)
    requires Ready(h, now) && now <= later
    ensures Ready(Judge(h, verdict, now), later)
  {
    AppendKeepsOrder(h.accepted, now);
  }

  /** The log stands for the accepted calls in every window that can still matter. */
  ghost predicate Stands(log: seq<int>, h: History, now: int, window: int) {
    && NonDecreasing(log) && UpTo(log, now)
    && forall later :: later >= now ==> Recent(log, later, window) == Recent(h.accepted, later, window)
  }

  lemma FilterStands(log: seq<int>, h: History, limit: int, window: int, now: int)
    requires Stands(log, h, now, window) && Ready(h, now)
    ensures Stands(FilterLog(log, limit, window, now), Judge(h, FilterAccepts(log, limit, window, now), now), now, window)
  {
    if FilterAccepts(log, limit, window, now) {
      RecentHolds(log, now, window);
      AppendKeepsOrder(Recent(log, now, window), now);
      forall later | later >= now
        ensures Recent(Recent(log, now, window) + [now], later, window) == Recent(h.accepted + [now], later, window)
      {
        RecentAppend(Recent(log, now, window), [now], later, window);
        RecentAppend(h.accepted, [now], later, window);
        RecentOfRecent(log, now, later, window);
      }
    }
  }

  lemma ShiftStands(log: seq<int>, h: History, limit: int, window: int, now: int)
    requires Stands(log, h, now, window) && Ready(h, now)
    ensures Stands(ShiftLog(log, limit, window, now), Judge(h, ShiftAccepts(log, limit, window, now), now), now, window)
  {
    ShiftedIsRecent(log, now, window);
    RecentHolds(log, now, window);
    var rest := Recent(log, now, window);
    assert rest + [] == rest;
    AppendKeepsOrder(rest, now);
    forall later | later >= now
      ensures Recent(rest + [now], later, window) == Recent(h.accepted + [now], later, window)
      ensures Recent(rest, later, window) == Recent(h.accepted, later, window)
    {
      RecentAppend(rest, [now], later, window);
      RecentAppend(h.accepted, [now], later, window);
      RecentOfRecent(log, now, later, window);
    }
  }

  lemma Later(log: seq<int>, h: History, now: int, later: int, window: int)
    requires Stands(log, h, now, window) && now <= later
    ensures Stands(log, h, later, window)
  {}

  lemma {:induction false} FilterFollowsRule(log: seq<int>, h: History, times: seq<int>, limit: int, window: int)
    requires NonDecreasing(times)
    requires times != [] ==> Stands(log, h, times[0], window) && Ready(h, times[0])
    ensures FilterRun(log, h, times, limit, window) == RuleRun(h, times, limit, window)
    decreases |times|
  {
    if times != [] {
      var now, next := times[0], Judge(h, FilterAccepts(log, limit, window, times[0]), times[0]);
      FilterStands(log, h, limit, window, now);
      if |times| > 1 {
        Later(FilterLog(log, limit, window, now), next, now, times[1], window);
        JudgeKeepsReady(h, FilterAccepts(log, limit, window, now), now, times[1]);
      }
      FilterFollowsRule(FilterLog(log, limit, window, now), next, times[1..], limit, window);
    }
  }

  lemma {:induction false} ShiftFollowsRule(log: seq<int>, h: History, times: seq<int>, limit: int, window: int)
    requires NonDecreasing(times)
    requires times != [] ==> Stands(log, h, times[0], window) && Ready(h, times[0])
    ensures ShiftRun(log, h, times, limit, window) == RuleRun(h, times, limit, window)
    decreases |times|
  {
    if times != [] {
      var now, next := times[0], Judge(h, ShiftAccepts(log, limit, window, times[0]), times[0]);
      ShiftedIsRecent(log, now, window);
      ShiftStands(log, h, limit, window, now);
      if |times| > 1 {
        Later(ShiftLog(log, limit, window, now), next, now, times[1], window);
        JudgeKeepsReady(h, ShiftAccepts(log, limit, window, now), now, times[1]);
      }
      ShiftFollowsRule(ShiftLog(log, limit, window, now), next, times[1..], limit, window);
    }
  }

  const Fresh := History([], [])

  /** On a clock that never goes back, both limiters make the same decisions, and they are the rule's: a call is
      accepted exactly when fewer than `limit` accepted calls lie in the window that ends with it. */
  lemma BothLimitersFollowTheRule(times: seq<int>, limit: int, window: int)
    requires NonDecreasing(times)
    ensures FilterRun([], Fresh, times, limit, window) == RuleRun(Fresh, times, limit, window)
    ensures ShiftRun([], Fresh, times, limit, window) == RuleRun(Fresh, times, limit, window)
  {
    FilterFollowsRule([], Fresh, times, limit, window);
    ShiftFollowsRule([], Fresh, times, limit, window);
  }

  // ---- no window holds more ---------------------------------------------------------------------------------------

  function Before(log: seq<int>, end: int): seq<int> {
    if log == [] || log[|log| - 1] <= end then log else Before(log[..|log| - 1], end)
  }

  /** Accepted calls in the window (end - window, end]. */
  function InWindow(log: seq<int>, end: int, window: int): seq<int> {
    Recent(Before(log, end), end, window)
  }

  ghost predicate WindowsWithin(log: seq<int>, limit: int, window: int) {
    forall end :: |InWindow(log, end, window)| <= limit
  }

  lemma {:induction false} RecentShrinks(log: seq<int>, now: int, later: int, window: int)
    requires now <= later
    ensures |Recent(log, later, window)| <= |Recent(log, now, window)|
  {
    if log != [] { RecentShrinks(log[1..], now, later, window); }
  }

  lemma AcceptKeepsWindows(log: seq<int>, now: int, limit: int, window: int)
    requires WindowsWithin(log, limit, window) && UpTo(log, now) && |Recent(log, now, window)| < limit
    ensures WindowsWithin(log + [now], limit, window)
  {
    forall end ensures |InWindow(log + [now], end, window)| <= limit {
      var longer := log + [now];
      assert longer[..|longer| - 1] == log;
      if now <= end {
        RecentAppend(log, [now], end, window);
        RecentShrinks(log, now, end, window);
        assert |Recent([now], end, window)| <= 1;
      } else {
        assert InWindow(longer, end, window) == InWindow(log, end, window);
      }
    }
  }

  lemma {:induction false} RuleKeepsWindows(h: History, times: seq<int>, limit: int, window: int)
    requires NonDecreasing(times) && WindowsWithin(h.accepted, limit, window)
    requires times != [] ==> Ready(h, times[0])
    ensures WindowsWithin(RuleRun(h, times, limit, window).accepted, limit, window)
    decreases |times|
  {
    if times != [] {
      var verdict := |Recent(h.accepted, times[0], window)| < limit;
      if verdict { AcceptKeepsWindows(h.accepted, times[0], limit, window); }
      if |times| > 1 { JudgeKeepsReady(h, verdict, times[0], times[1]); }
      hide WindowsWithin;
      RuleKeepsWindows(Judge(h, verdict, times[0]), times[1..], limit, window);
    }
  }

  /** On a clock that never goes back, no window of either limiter, wherever it ends, holds more than `limit`
      accepted calls. */
  lemma NoWindowHoldsMore(times: seq<int>, limit: int, window: int, end: int)
    requires NonDecreasing(times) && limit >= 0
    ensures |InWindow(FilterRun([], Fresh, times, limit, window).accepted, end, window)| <= limit
    ensures |InWindow(ShiftRun([], Fresh, times, limit, window).accepted, end, window)| <= limit
  {
    BothLimitersFollowTheRule(times, limit, window);
    RuleKeepsWindows(Fresh, times, limit, window);
    assert WindowsWithin(RuleRun(Fresh, times, limit, window).accepted, limit, window);
  }

  // ---- when the two limiters part ---------------------------------------------------------------------------------

  lemma {:induction false} RecentIsNoLonger(log: seq<int>, now: int, window: int)
    ensures |Recent(log, now, window)| <= |log|
    ensures (exists t <- log :: t <= now - window) ==> |Recent(log, now, window)| < |log|
  {
    if log != [] {
      RecentIsNoLonger(log[1..], now, window);
      assert log == [log[0]] + log[1..];
    }
  }

  /** What is shifted off is not recent. */
  lemma {:induction false} RecentOfShifted(log: seq<int>, now: int, window: int)
    ensures Recent(Shifted(log, now, window), now, window) == Recent(log, now, window)
  {
    if log != [] && log[0] <= now - window { RecentOfShifted(log[1..], now, window); }
  }

  /** An old time behind a recent one is not shifted off. */
  lemma {:induction false} StaleBehindRecent(log: seq<int>, now: int, window: int, i: nat, j: nat)
    requires i < j < |log| && log[j] <= now - window < log[i]
    ensures log[j] in Shifted(log, now, window)
  {
    if log[0] <= now - window { StaleBehindRecent(log[1..], now, window, i - 1, j - 1); }
  }

  /** On one log, filtering and shifting make the same decision at every time and under every limit exactly when
      the log is in order; a log is out of order only if the clock was set back while it filled. */
  lemma LimitersAgreeIffInOrder(log: seq<int>, window: int)
    ensures (forall now, limit :: FilterAccepts(log, limit, window, now) <==> ShiftAccepts(log, limit, window, now))
            <==> NonDecreasing(log)
  {
    if NonDecreasing(log) {
      forall now, limit ensures FilterAccepts(log, limit, window, now) <==> ShiftAccepts(log, limit, window, now) {
        ShiftedIsRecent(log, now, window);
      }
    } else {
      var i, j :| 0 <= i <= j < |log| && log[i] > log[j];
      var now := log[j] + window;
      var shifted := Shifted(log, now, window);
      StaleBehindRecent(log, now, window, i, j);
      RecentOfShifted(log, now, window);
      RecentIsNoLonger(shifted, now, window);
      assert FilterAccepts(log, |shifted|, window, now) && !ShiftAccepts(log, |shifted|, window, now);
    }
  }

  /** A history on which they part: the queue holds on to an old time behind a newer one. */
  lemma ClockSetBackParts()
    ensures FilterRun([], Fresh, [20, 5, 16], 2, 10).verdicts == [true, true, true]
    ensures ShiftRun([], Fresh, [20, 5, 16], 2, 10).verdicts == [true, true, false]
  {
    FilterTakesThree();
    ShiftRefusesThird();
  }

  lemma FilterTakesThree()
    ensures FilterRun([], Fresh, [20, 5, 16], 2, 10).verdicts == [true, true, true]
  {
    hide ShiftLog, ShiftRun, Shifted;
    assert [20, 5, 16][1..] == [5, 16] && [5, 16][1..] == [16] && [16][1..] == [];
    assert [20][1..] == [] && [20, 5][1..] == [5] && [5][1..] == [];
    assert FilterLog([], 2, 10, 20) == [20] && FilterLog([20], 2, 10, 5) == [20, 5];
    assert FilterAccepts([20, 5], 2, 10, 16);
    hide FilterLog, Recent;
  }

  lemma ShiftRefusesThird()
    ensures ShiftRun([], Fresh, [20, 5, 16], 2, 10).verdicts == [true, true, false]
  {
    hide FilterLog, FilterRun, Recent;
    assert [20, 5, 16][1..] == [5, 16] && [5, 16][1..] == [16] && [16][1..] == [];
    assert ShiftLog([], 2, 10, 20) == [20] && ShiftLog([20], 2, 10, 5) == [20, 5];
    assert !ShiftAccepts([20, 5], 2, 10, 16);
    hide ShiftLog, Shifted;
  }
}
