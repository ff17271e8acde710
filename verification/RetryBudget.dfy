/** The retry budget: a token bucket whose decisions are exactly those that keep every window within its bound. */
module RetryBudget {

  /** How much the bucket holds, and how much comes back each second. */
  datatype Policy = Policy(capacity: real, refillPerSecond: real)

  predicate Sensible(p: Policy) { p.capacity >= 0.0 && p.refillPerSecond >= 0.0 }

  function Lesser(a: real, b: real): real { if a < b then a else b }

  /** Time that passed between two readings of the clock; a clock set back passes no time. */
  function Elapsed(earlier: int, later: int): real {
    if later > earlier then (later - earlier) as real else 0.0
  }

  /** What comes back in a number of milliseconds. */
  function Refilled(p: Policy, elapsed: real): real { elapsed / 1000.0 * p.refillPerSecond }

  function Refill(p: Policy, tokens: real, elapsed: real): real {
    Lesser(p.capacity, tokens + Refilled(p, elapsed))
  }

  function Cost(accepted: bool): real { if accepted then 1.0 else 0.0 }

  /** What the bucket holds when the n-th call decides. The first call follows a bucket made full. */
  function Level(p: Policy, start: int, times: seq<int>, n: nat): real
    requires n < |times|
    decreases n, 0
  {
    if n == 0 then Refill(p, p.capacity, Elapsed(start, times[0]))
    else
      Refill(p, Level(p, start, times, n - 1) - Cost(Accepts(p, start, times, n - 1)), Elapsed(times[n - 1], times[n]))
  }

  predicate Accepts(p: Policy, start: int, times: seq<int>, n: nat)
    requires n < |times|
    decreases n, 1
  {
    Level(p, start, times, n) >= 1.0
  }

  class Budget {
    const policy: Policy
    var tokens: real
    var lastRefill: int
    ghost const start: int
    ghost var calls: seq<int>

    ghost predicate Valid()
      reads this
    {
      && lastRefill == (if calls == [] then start else calls[|calls| - 1])
      && tokens == if calls == [] then policy.capacity
                   else Level(policy, start, calls, |calls| - 1) - Cost(Accepts(policy, start, calls, |calls| - 1))
    }

    constructor (policy: Policy, now: int)
      ensures Valid() && this.policy == policy && start == now && calls == []
    {
      this.policy, tokens, lastRefill := policy, policy.capacity, now;
      start, calls := now, [];
    }

    method TryConsume(now: int) returns (accepted: bool)
      requires Valid()
      modifies this
      ensures Valid() && calls == old(calls) + [now]
      ensures accepted == Accepts(policy, start, calls, |calls| - 1)
    {
      ghost var before := calls;
      calls := calls + [now];
      SamePast(policy, start, before, calls, |before|);
      hide Refilled;
      ghost var n := |before|;
      assert n > 0 ==> calls[n - 1] == before[n - 1];
      assert n > 0 ==> Level(policy, start, calls, n - 1) == Level(policy, start, before, n - 1);
      var elapsed := if now - lastRefill > 0 then (now - lastRefill) as real else 0.0;
      assert elapsed == Elapsed(lastRefill, now);
      assert Level(policy, start, calls, n) == Refill(policy, tokens, elapsed);
      tokens := Lesser(policy.capacity, tokens + Refilled(policy, elapsed));
      lastRefill := now;
      if tokens < 1.0 { return false; }
      tokens := tokens - 1.0;
      return true;
    }
  }

  lemma {:induction false} SamePast(p: Policy, start: int, a: seq<int>, b: seq<int>, n: nat)
    requires n <= |a| && n <= |b| && a[..n] == b[..n]
    ensures forall k :: 0 <= k < n ==> Level(p, start, a, k) == Level(p, start, b, k)
    decreases n
  {
    if n > 0 {
      assert a[..n - 1] == a[..n][..n - 1] && b[..n - 1] == b[..n][..n - 1];
      assert forall k :: 0 <= k < n ==> a[k] == a[..n][k] && b[k] == b[..n][k];
      SamePast(p, start, a, b, n - 1);
    }
  }

  // ---- windows ----------------------------------------------------------------------------------------------------

  /** Calls accepted from the k-th up to, but not with, the n-th. */
  function Successes(p: Policy, start: int, times: seq<int>, k: nat, n: nat): nat
    requires k <= n <= |times|
    decreases n
  {
    if n == k then 0
    else Successes(p, start, times, k, n - 1) + if Accepts(p, start, times, n - 1) then 1 else 0
  }

  /** Time that passed between two calls. */
  function Passed(times: seq<int>, k: nat, n: nat): real
    requires k <= n < |times|
    decreases n
  {
    if n == k then 0.0 else Passed(times, k, n - 1) + Elapsed(times[n - 1], times[n])
  }

  /** What a window may let through: a full bucket and what comes back while it lasts. */
  function Allowance(p: Policy, times: seq<int>, k: nat, n: nat): real
    requires k <= n < |times|
  {
    p.capacity + Refilled(p, Passed(times, k, n))
  }

  lemma RefilledAdds(p: Policy, a: real, b: real)
    ensures Refilled(p, a + b) == Refilled(p, a) + Refilled(p, b)
  {
    Distribute(a / 1000.0, b / 1000.0, p.refillPerSecond);
  }

  lemma Distribute(x: real, y: real, r: real)
    ensures (x + y) * r == x * r + y * r
  {}

  lemma RefilledIsNonNegative(p: Policy, elapsed: real)
    requires Sensible(p) && elapsed >= 0.0
    ensures Refilled(p, elapsed) >= 0.0
  {}

  /** Each window that ends at a call leaves what it allows less what it let through. */
  function Leave(p: Policy, start: int, times: seq<int>, k: nat, n: nat): real
    requires k <= n < |times|
  {
    Allowance(p, times, k, n) - Successes(p, start, times, k, n) as real
  }

  lemma LeaveMoves(p: Policy, start: int, times: seq<int>, k: nat, n: nat)
    requires k < n < |times|
    ensures Leave(p, start, times, k, n)
            == Leave(p, start, times, k, n - 1) - Cost(Accepts(p, start, times, n - 1))
               + Refilled(p, Elapsed(times[n - 1], times[n]))
  {
    RefilledAdds(p, Passed(times, k, n - 1), Elapsed(times[n - 1], times[n]));
    hide Refilled, Level, Elapsed;
  }

  lemma LeaveAtOnce(p: Policy, start: int, times: seq<int>, n: nat)
    requires n < |times|
    ensures Leave(p, start, times, n, n) == p.capacity
  {
    assert Refilled(p, 0.0) == 0.0;
    hide Refilled, Level;
  }

  /** The level is the least of what the windows ending here leave. */
  lemma {:induction false} LevelIsLeastLeave(p: Policy, start: int, times: seq<int>, n: nat) returns (k: nat)
    requires Sensible(p) && n < |times|
    ensures forall j :: 0 <= j <= n ==> Level(p, start, times, n) <= Leave(p, start, times, j, n)
    ensures k <= n && Level(p, start, times, n) == Leave(p, start, times, k, n)
    decreases n
  {
    LeaveAtOnce(p, start, times, n);
    if n == 0 {
      RefilledIsNonNegative(p, Elapsed(start, times[0]));
      hide Refilled;
      k := 0;
    } else {
      k := LevelIsLeastLeave(p, start, times, n - 1);
      forall j | 0 <= j < n
        ensures Leave(p, start, times, j, n)
                == Leave(p, start, times, j, n - 1) - Cost(Accepts(p, start, times, n - 1))
                   + Refilled(p, Elapsed(times[n - 1], times[n]))
      {
        LeaveMoves(p, start, times, j, n);
      }
      hide Leave, Refilled, Elapsed, Accepts, Cost;
      if p.capacity < Leave(p, start, times, k, n) { k := n; }
    }
  }

  /** Whatever the clock does: a call is accepted exactly when, with it, every window that ends with it holds no
      more successes than a full bucket and what came back in the time the window took. */
  lemma AcceptedIffEveryWindowAllows(p: Policy, start: int, times: seq<int>, n: nat)
    requires Sensible(p) && n < |times|
    ensures Accepts(p, start, times, n) <==>
            forall k :: 0 <= k <= n ==> Successes(p, start, times, k, n) as real + 1.0 <= Allowance(p, times, k, n)
  {
    var least := LevelIsLeastLeave(p, start, times, n);
    hide Level, Allowance, Successes;
    if Accepts(p, start, times, n) {
      forall k | 0 <= k <= n ensures Successes(p, start, times, k, n) as real + 1.0 <= Allowance(p, times, k, n) {
        assert Level(p, start, times, n) <= Leave(p, start, times, k, n);
      }
    }
  }

  /** Tokens stay between nothing and a full bucket. */
  lemma {:induction false} LevelIsBounded(p: Policy, start: int, times: seq<int>, n: nat)
    requires Sensible(p) && n < |times|
    ensures 0.0 <= Level(p, start, times, n) - Cost(Accepts(p, start, times, n)) <= p.capacity
    ensures Level(p, start, times, n) <= p.capacity
  {
    RefilledIsNonNegative(p, if n == 0 then Elapsed(start, times[0]) else Elapsed(times[n - 1], times[n]));
    hide Refilled;
    if n > 0 { LevelIsBounded(p, start, times, n - 1); }
  }

  // ---- windows by the clock ---------------------------------------------------------------------------------------

  /** The clock is not set back from one call to another. */
  predicate Forward(times: seq<int>, k: nat, n: nat)
    requires k <= n < |times|
  {
    forall i :: k <= i < n ==> times[i] <= times[i + 1]
  }

  /** The time that passed between two calls is never less than the clock says, and is what it says exactly when
      the clock was not set back between them. */
  lemma {:induction false} PassedIsClockIffForward(times: seq<int>, k: nat, n: nat)
    requires k <= n < |times|
    ensures Passed(times, k, n) >= (times[n] - times[k]) as real && Passed(times, k, n) >= 0.0
    ensures Passed(times, k, n) == (times[n] - times[k]) as real <==> Forward(times, k, n)
    decreases n
  {
    if n > k {
      PassedIsClockIffForward(times, k, n - 1);
      assert Forward(times, k, n) <==> Forward(times, k, n - 1) && times[n - 1] <= times[n];
    }
  }

  /** On any clock, the successes from one call to another number at most the capacity and the refill of the time
      that passed between them. */
  lemma {:induction false} PassedBoundsSuccesses(p: Policy, start: int, times: seq<int>, k: nat, n: nat)
    requires Sensible(p) && k <= n < |times|
    ensures Successes(p, start, times, k, n + 1) as real <= p.capacity + Refilled(p, Passed(times, k, n))
    decreases n
  {
    if Accepts(p, start, times, n) {
      AcceptedIffEveryWindowAllows(p, start, times, n);
      assert Successes(p, start, times, k, n) as real + 1.0 <= Allowance(p, times, k, n);
      hide Level, Refilled, Passed;
    } else if n > k {
      PassedBoundsSuccesses(p, start, times, k, n - 1);
      RefilledAdds(p, Passed(times, k, n - 1), Elapsed(times[n - 1], times[n]));
      RefilledIsNonNegative(p, Elapsed(times[n - 1], times[n]));
      hide Level, Refilled, Elapsed;
    } else {
      assert Refilled(p, 0.0) == 0.0;
      hide Level, Refilled;
    }
  }

  /** On a clock not set back between two calls, the successes from one to the other number at most the capacity
      and the refill of the time between them. */
  lemma WindowsAreBounded(p: Policy, start: int, times: seq<int>, k: nat, n: nat)
    requires Sensible(p) && k <= n < |times| && Forward(times, k, n)
    ensures Successes(p, start, times, k, n + 1) as real <= p.capacity + Refilled(p, (times[n] - times[k]) as real)
  {
    PassedIsClockIffForward(times, k, n);
    PassedBoundsSuccesses(p, start, times, k, n);
    hide Successes, Passed, Refilled, Forward;
  }

  // ---- which clocks overspend -------------------------------------------------------------------------------------

  lemma {:induction false} SuccessesAdd(p: Policy, start: int, times: seq<int>, k: nat, n: nat)
    requires k <= n <= |times|
    ensures Successes(p, start, times, 0, n) == Successes(p, start, times, 0, k) + Successes(p, start, times, k, n)
    decreases n
  {
    hide Accepts;
    if n > k { SuccessesAdd(p, start, times, k, n - 1); }
  }

  /** A bucket of one token that needs all the time that passed to fill again. */
  function Tight(passed: real): Policy { Policy(1.0, if passed > 0.0 then 1000.0 / passed else 1.0) }

  lemma TightRefill(passed: real)
    ensures Sensible(Tight(passed)) && (passed > 0.0 ==> Refilled(Tight(passed), passed) == 1.0)
  {
    if passed > 0.0 { TimesQuotient(passed); }
  }

  lemma TimesQuotient(x: real)
    requires x > 0.0
    ensures x / 1000.0 * (1000.0 / x) == 1.0
  {
    assert x / 1000.0 * (1000.0 / x) == (x * (1000.0 / x)) / 1000.0;
  }

  lemma LessRefill(p: Policy, less: real, more: real)
    requires p.refillPerSecond > 0.0 && less < more
    ensures Refilled(p, less) < Refilled(p, more)
  {
    RefilledAdds(p, less, more - less);
    Positive((more - less) / 1000.0, p.refillPerSecond);
  }

  lemma Positive(x: real, y: real)
    requires x > 0.0 && y > 0.0
    ensures x * y > 0.0
  {}

  /** The first call finds a full bucket, and the bucket has filled once more by the last. */
  lemma TightSpends(start: int, times: seq<int>, n: nat)
    requires n < |times|
    ensures Successes(Tight(Passed(times, 0, n)), start, times, 0, n + 1) >= if Passed(times, 0, n) > 0.0 then 2 else 1
  {
    var passed := Passed(times, 0, n);
    var p := Tight(passed);
    TightRefill(passed);
    FirstIsAccepted(p, start, times);
    SuccessesAdd(p, start, times, 1, n + 1);
    if passed > 0.0 {
      SuccessesAdd(p, start, times, 1, n);
      if Successes(p, start, times, 0, n) == 1 {
        forall k | 0 <= k <= n ensures Successes(p, start, times, k, n) as real + 1.0 <= Allowance(p, times, k, n) {
          hide Level, Refilled, Tight;
          PassedIsClockIffForward(times, k, n);
          RefilledIsNonNegative(p, Passed(times, k, n));
          if k > 0 {
            SuccessesAdd(p, start, times, k, n);
            SuccessesAdd(p, start, times, 1, k);
          }
        }
        AcceptedIffEveryWindowAllows(p, start, times, n);
      }
      hide Level, Tight, Passed, Allowance;
    }
  }

  lemma FirstIsAccepted(p: Policy, start: int, times: seq<int>)
    requires Sensible(p) && p.capacity == 1.0 && times != []
    ensures Successes(p, start, times, 0, 1) == 1
  {
    RefilledIsNonNegative(p, Elapsed(start, times[0]));
    hide Refilled, Elapsed;
    assert Accepts(p, start, times, 0);
  }

  /** No policy lets through, from the first call to another, more than its capacity and the refill of the time the
      clock says lies between them, exactly when the clock is never set back. */
  lemma NoPolicyOverspendsIffForward(start: int, times: seq<int>, n: nat)
    requires n < |times|
    ensures (forall p | Sensible(p) ::
               Successes(p, start, times, 0, n + 1) as real <= p.capacity + Refilled(p, (times[n] - times[0]) as real))
            <==> Forward(times, 0, n)
  {
    if Forward(times, 0, n) {
      forall p | Sensible(p)
        ensures Successes(p, start, times, 0, n + 1) as real <= p.capacity + Refilled(p, (times[n] - times[0]) as real)
      {
        WindowsAreBounded(p, start, times, 0, n);
      }
    } else {
      var passed, clock := Passed(times, 0, n), (times[n] - times[0]) as real;
      var p := Tight(passed);
      PassedIsClockIffForward(times, 0, n);
      TightRefill(passed);
      TightSpends(start, times, n);
      assert p.refillPerSecond > 0.0 by { if passed > 0.0 { Positive(1000.0, 1.0 / passed); } }
      LessRefill(p, clock, passed);
      assert passed == 0.0 ==> Refilled(p, passed) == 0.0;
      hide Refilled, Successes, Forward, Passed;
      assert Successes(p, start, times, 0, n + 1) as real > p.capacity + Refilled(p, clock);
    }
  }

  /** A history that overspends in the midst of a clock's ups and downs. */
  lemma ClockSetBackOverspends()
    ensures var p, times := Policy(1.0, 1.0), [0, 1000, 0, 1000];
            Successes(p, 0, times, 0, 4) as real > p.capacity + Refilled(p, (times[3] - times[0]) as real)
  {
    var p, times := Policy(1.0, 1.0), [0, 1000, 0, 1000];
    assert Refilled(p, 0.0) == 0.0 && Refilled(p, 1000.0) == 1.0;
    LevelStep(p, 0, times, 1);
    LevelStep(p, 0, times, 2);
    LevelStep(p, 0, times, 3);
    assert Level(p, 0, times, 0) == 1.0 && Successes(p, 0, times, 0, 0) == 0;
    hide Refilled, Level, Successes;
  }

  lemma LevelStep(p: Policy, start: int, times: seq<int>, n: nat)
    requires 0 < n < |times|
    ensures Level(p, start, times, n)
            == Refill(p, Level(p, start, times, n - 1) - Cost(Accepts(p, start, times, n - 1)),
                      Elapsed(times[n - 1], times[n]))
    ensures Successes(p, start, times, 0, n + 1)
            == Successes(p, start, times, 0, n) + if Accepts(p, start, times, n) then 1 else 0
    ensures Successes(p, start, times, 0, 1) == if Accepts(p, start, times, 0) then 1 else 0
  {}
}
