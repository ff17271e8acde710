/** The Redis throttler: a counter that lives for a while from its first hit, and a key that blocks. */
module Throttler {
  import opened Clocks
  import opened Options

  /** The counter key: its value and the instant it expires at. */
  datatype Hits = Hits(count: nat, expires: int)

  /** The two keys of one caller. A key is gone once the clock has passed its expiry. */
  datatype Keys = Keys(hits: Option<Hits>, block: Option<int>)

  /** Times are in milliseconds; a block duration of zero stands for `ttl`. */
  datatype Policy = Policy(ttl: int, limit: int, blockDuration: nat)

  datatype Answer = Answer(totalHits: int, timeToExpire: int, isBlocked: bool, timeToBlockExpire: int)

  function BlockFor(p: Policy): int { if p.blockDuration == 0 then p.ttl else p.blockDuration }

  function LiveHits(k: Keys, now: int): Option<Hits> {
    if k.hits.Some? && k.hits.value.expires < now then None else k.hits
  }

  /** Milliseconds the block has left; negative for no key. */
  function BlockLeft(k: Keys, now: int): int {
    if k.block.Some? && k.block.value >= now then k.block.value - now else -2
  }

  /** A missing counter starts at one and lives for `ttl` from then. */
  function Incremented(p: Policy, k: Keys, now: int): Hits {
    match LiveHits(k, now)
    case None => Hits(1, now + p.ttl)
    case Some(h) => if h.count == 0 then Hits(1, now + p.ttl) else Hits(h.count + 1, h.expires)
  }

  /** Whether a call gets through. */
  predicate Passes(p: Policy, k: Keys, now: int) {
    BlockLeft(k, now) <= 0 && Incremented(p, k, now).count <= p.limit
  }

  function Step(p: Policy, k: Keys, now: int): Keys {
    if BlockLeft(k, now) > 0 then k
    else
      var h := Incremented(p, k, now);
      Keys(Some(h), if h.count > p.limit then Some(now + BlockFor(p)) else k.block)
  }

  class ThrottlerStorage {
    const policy: Policy
    var keys: Keys

    constructor (policy: Policy)
      ensures this.policy == policy && keys == Keys(None, None)
    {
      this.policy, keys := policy, Keys(None, None);
    }

    method Increment(now: int) returns (answer: Answer)
      requires policy.ttl > 0
      modifies this
      ensures keys == Step(policy, old(keys), now)
      ensures answer.isBlocked <==> !Passes(policy, old(keys), now)
      ensures answer.timeToBlockExpire
              == if BlockLeft(old(keys), now) > 0 then BlockLeft(old(keys), now)
                 else if answer.isBlocked then BlockFor(policy) else 0
      ensures answer.totalHits
              == if BlockLeft(old(keys), now) <= 0 then Incremented(policy, old(keys), now).count
                 else if LiveHits(old(keys), now).Some? then LiveHits(old(keys), now).value.count else policy.limit
      ensures answer.timeToExpire == if LiveHits(keys, now).Some? then LiveHits(keys, now).value.expires - now else 0
    {
      var blockedTtl := BlockLeft(keys, now);
      var live := LiveHits(keys, now);
      if blockedTtl > 0 {
        var hits := if live.Some? then live.value.count else policy.limit;
        return Answer(hits, if live.Some? then live.value.expires - now else 0, true, blockedTtl);
      }
      var hits := if live.Some? then live.value.count + 1 else 1;
      var expires := if hits == 1 then now + policy.ttl else live.value.expires;
      keys := keys.(hits := Some(Hits(hits, expires)));
      var hitsTtl := expires - now;
      if hits > policy.limit {
        keys := keys.(block := Some(now + BlockFor(policy)));
        return Answer(hits, hitsTtl, true, BlockFor(policy));
      }
      return Answer(hits, hitsTtl, false, 0);
    }
  }

  // ---- histories -----------------------------------------------------------------------------------------------

  /** A call that got through, and the first hit of the counter it was counted by. */
  datatype Pass = Pass(at: int, birth: int)

  datatype State = State(keys: Keys, passes: seq<Pass>)

  function Call(p: Policy, s: State, now: int): State {
    State(Step(p, s.keys, now),
          if Passes(p, s.keys, now) then s.passes + [Pass(now, Incremented(p, s.keys, now).expires - p.ttl)] else s.passes)
  }

  function Run(p: Policy, s: State, times: seq<int>): State
    decreases |times|
  {
    if |times| == 0 then s else Run(p, Call(p, s, times[0]), times[1..])
  }

  const Fresh := State(Keys(None, None), [])

  function OfLifetime(passes: seq<Pass>, birth: int): nat {
    if passes == [] then 0
    else OfLifetime(passes[..|passes| - 1], birth) + if passes[|passes| - 1].birth == birth then 1 else 0
  }

  /** Passes in the closed interval from `from` to `from + length`. */
  function During(passes: seq<Pass>, from: int, length: int): nat {
    if passes == [] then 0
    else During(passes[..|passes| - 1], from, length) + if from <= passes[|passes| - 1].at <= from + length then 1 else 0
  }

  // ---- what every history keeps ----------------------------------------------------------------------------------

  /** The living or last counter accounts for the passes of its lifetime; earlier lifetimes ended before it. */
  predicate Accounted(p: Policy, s: State) {
    && (s.keys.hits.None? ==> s.passes == [])
    && (s.keys.hits.Some? ==>
          var h := s.keys.hits.value;
          && h.count >= 1
          && OfLifetime(s.passes, h.expires - p.ttl) <= h.count
          && (p.limit >= 1 ==> Pass(h.expires - p.ttl, h.expires - p.ttl) in s.passes)
          && forall q <- s.passes :: q.birth == h.expires - p.ttl || q.birth + p.ttl < h.expires - p.ttl)
  }

  /** Lifetimes hold at most `limit` passes each, lie apart, contain their passes, and begin with one. */
  ghost predicate Lifetimes(p: Policy, passes: seq<Pass>) {
    && (forall birth :: OfLifetime(passes, birth) <= p.limit)
    && (forall q <- passes :: q.birth <= q.at <= q.birth + p.ttl)
    && (forall q <- passes, r <- passes :: q.birth < r.birth ==> q.birth + p.ttl < r.birth)
    && (forall q <- passes :: Pass(q.birth, q.birth) in passes)
  }

  predicate NotAhead(p: Policy, s: State, now: int) {
    s.keys.hits.Some? ==> s.keys.hits.value.expires - p.ttl <= now
  }

  lemma {:induction false} NoneOfLifetime(passes: seq<Pass>, birth: int)
    requires forall q <- passes :: q.birth != birth
    ensures OfLifetime(passes, birth) == 0
  {
    if passes != [] {
      var front := passes[..|passes| - 1];
      assert passes[|passes| - 1] in passes && forall q <- front :: q in passes;
      NoneOfLifetime(front, birth);
    }
  }

  lemma AppendPass(passes: seq<Pass>, q: Pass, birth: int)
    ensures OfLifetime(passes + [q], birth) == OfLifetime(passes, birth) + if q.birth == birth then 1 else 0
  {
    assert (passes + [q])[..|passes + [q]| - 1] == passes;
  }

  lemma CallKeepsAccounts(p: Policy, s: State, now: int)
    requires p.ttl > 0 && p.limit >= 0 && Accounted(p, s) && NotAhead(p, s, now)
    ensures Accounted(p, Call(p, s, now)) && NotAhead(p, Call(p, s, now), now)
  {
    var next := Call(p, s, now);
    if BlockLeft(s.keys, now) <= 0 {
      var h := Incremented(p, s.keys, now);
      var birth := h.expires - p.ttl;
      var live := LiveHits(s.keys, now);
      if live.None? || live.value.count == 0 { NoneOfLifetime(s.passes, birth); }
      AppendPass(s.passes, Pass(now, birth), birth);
      assert OfLifetime(next.passes, birth) <= h.count;
    }
  }

  /** Where a passing call falls among the passes before it. */
  lemma PassFalls(p: Policy, s: State, now: int)
    requires p.ttl > 0 && Accounted(p, s) && NotAhead(p, s, now) && Passes(p, s.keys, now)
    ensures var birth := Incremented(p, s.keys, now).expires - p.ttl;
            && birth <= now <= birth + p.ttl
            && OfLifetime(s.passes, birth) < p.limit
            && (birth == now || Pass(birth, birth) in s.passes)
            && forall r <- s.passes :: r.birth == birth || r.birth + p.ttl < birth
  {
    var birth := Incremented(p, s.keys, now).expires - p.ttl;
    if LiveHits(s.keys, now).None? { NoneOfLifetime(s.passes, birth); }
    hide OfLifetime;
  }

  lemma CallKeepsLifetimes(p: Policy, s: State, now: int)
    requires p.ttl > 0 && Accounted(p, s) && NotAhead(p, s, now) && Lifetimes(p, s.passes)
    ensures Lifetimes(p, Call(p, s, now).passes)
  {
    if Passes(p, s.keys, now) {
      var birth := Incremented(p, s.keys, now).expires - p.ttl;
      PassFalls(p, s, now);
      hide Accounted, NotAhead, Passes, Incremented, OfLifetime;
      PassKeepsLifetimes(p, s.passes, Pass(now, birth));
      hide Lifetimes;
    }
  }

  lemma PassStaysWithinLimit(p: Policy, passes: seq<Pass>, q: Pass)
    requires (forall birth :: OfLifetime(passes, birth) <= p.limit) && OfLifetime(passes, q.birth) < p.limit
    ensures forall birth :: OfLifetime(passes + [q], birth) <= p.limit
  {
    forall birth ensures OfLifetime(passes + [q], birth) <= p.limit {
      AppendPass(passes, q, birth);
    }
  }

  lemma PassStaysInside(p: Policy, passes: seq<Pass>, q: Pass)
    requires (forall r <- passes :: r.birth <= r.at <= r.birth + p.ttl) && q.birth <= q.at <= q.birth + p.ttl
    ensures forall r <- passes + [q] :: r.birth <= r.at <= r.birth + p.ttl
  {
    assert forall r <- passes + [q] :: r in passes || r == q;
  }

  lemma PassStaysApart(p: Policy, passes: seq<Pass>, q: Pass)
    requires forall r <- passes, t <- passes :: r.birth < t.birth ==> r.birth + p.ttl < t.birth
    requires p.ttl > 0 && forall r <- passes :: r.birth == q.birth || r.birth + p.ttl < q.birth
    ensures forall r <- passes + [q], t <- passes + [q] :: r.birth < t.birth ==> r.birth + p.ttl < t.birth
  {
    forall r <- passes + [q], t <- passes + [q] ensures r.birth < t.birth ==> r.birth + p.ttl < t.birth {
      assert (r in passes || r == q) && (t in passes || t == q);
    }
  }

  lemma PassKeepsBirths(passes: seq<Pass>, q: Pass)
    requires (forall r <- passes :: Pass(r.birth, r.birth) in passes)
    requires q.birth == q.at || Pass(q.birth, q.birth) in passes
    ensures forall r <- passes + [q] :: Pass(r.birth, r.birth) in passes + [q]
  {
    forall r <- passes + [q] ensures Pass(r.birth, r.birth) in passes + [q] {
      assert r in passes || r == q;
    }
  }

  lemma PassKeepsLifetimes(p: Policy, passes: seq<Pass>, q: Pass)
    requires Lifetimes(p, passes) && OfLifetime(passes, q.birth) < p.limit && q.birth <= q.at <= q.birth + p.ttl
    requires q.birth == q.at || Pass(q.birth, q.birth) in passes
    requires p.ttl > 0 && forall r <- passes :: r.birth == q.birth || r.birth + p.ttl < q.birth
    ensures Lifetimes(p, passes + [q])
  {
    hide OfLifetime;
    PassStaysWithinLimit(p, passes, q);
    PassStaysInside(p, passes, q);
    PassStaysApart(p, passes, q);
    PassKeepsBirths(passes, q);
  }

  lemma {:induction false} RunKeeps(p: Policy, s: State, times: seq<int>)
    requires p.ttl > 0 && p.limit >= 0 && NonDecreasing(times)
    requires Accounted(p, s) && Lifetimes(p, s.passes) && (times != [] ==> NotAhead(p, s, times[0]))
    ensures Lifetimes(p, Run(p, s, times).passes)
    decreases |times|
  {
    if |times| > 0 {
      CallKeepsAccounts(p, s, times[0]);
      CallKeepsLifetimes(p, s, times[0]);
      assert |times| > 1 ==> times[0] <= times[1];
      hide Accounted, Lifetimes, Call;
      RunKeeps(p, Call(p, s, times[0]), times[1..]);
    }
  }

  /** A counter lets at most `limit` calls through in its lifetime; each passes within `ttl` of the counter's
      first hit, and no two lifetimes overlap. */
  lemma LifetimesAreBounded(p: Policy, times: seq<int>, birth: int)
    requires p.ttl > 0 && p.limit >= 0 && NonDecreasing(times)
    ensures var passes := Run(p, Fresh, times).passes;
            && OfLifetime(passes, birth) <= p.limit
            && (forall q <- passes :: q.birth <= q.at <= q.birth + p.ttl)
            && (forall q <- passes, r <- passes :: q.birth < r.birth ==> q.birth + p.ttl < r.birth)
  {
    assert Lifetimes(p, Fresh.passes);
    RunKeeps(p, Fresh, times);
  }

  // ---- any interval of length ttl ---------------------------------------------------------------------------------

  lemma {:induction false} TwoLifetimesCover(passes: seq<Pass>, from: int, length: int, a: int, b: int)
    requires forall q <- passes :: from <= q.at <= from + length ==> q.birth == a || q.birth == b
    ensures During(passes, from, length) <= OfLifetime(passes, a) + OfLifetime(passes, b)
  {
    if passes != [] {
      var front := passes[..|passes| - 1];
      assert passes[|passes| - 1] in passes && forall q <- front :: q in passes;
      TwoLifetimesCover(front, from, length, a, b);
    }
  }

  /** The passes of an interval no longer than a lifetime were counted in at most two. */
  lemma TwoLifetimesMeet(p: Policy, passes: seq<Pass>, from: int) returns (a: int, b: int)
    requires Lifetimes(p, passes)
    ensures forall q <- passes :: from <= q.at <= from + p.ttl ==> q.birth == a || q.birth == b
    ensures a != b ==> var e := if a < b then a else b; e < from && Pass(e, e) in passes
  {
    a, b := 0, 0;
    if q :| q in passes && from <= q.at <= from + p.ttl {
      a, b := q.birth, q.birth;
      if r :| r in passes && from <= r.at <= from + p.ttl && r.birth != a {
        b := r.birth;
      }
    }
  }

  /** A pass outside the interval is one less inside it. */
  lemma {:induction false} OneOutside(passes: seq<Pass>, from: int, length: int, a: int, b: int, q: Pass)
    requires forall r <- passes :: from <= r.at <= from + length ==> r.birth == a || r.birth == b
    requires q in passes && q.birth == a && !(from <= q.at <= from + length)
    ensures During(passes, from, length) + 1 <= OfLifetime(passes, a) + OfLifetime(passes, b)
  {
    var front := passes[..|passes| - 1];
    assert passes == front + [passes[|passes| - 1]];
    assert passes[|passes| - 1] in passes && forall r <- front :: r in passes;
    if q in front {
      OneOutside(front, from, length, a, b, q);
    } else {
      TwoLifetimesCover(front, from, length, a, b);
    }
  }

  lemma {:induction false} OneLifetimeCovers(passes: seq<Pass>, from: int, length: int, a: int)
    requires forall q <- passes :: from <= q.at <= from + length ==> q.birth == a
    ensures During(passes, from, length) <= OfLifetime(passes, a)
  {
    if passes != [] {
      var front := passes[..|passes| - 1];
      assert passes[|passes| - 1] in passes && forall q <- front :: q in passes;
      OneLifetimeCovers(front, from, length, a);
    }
  }

  /** Fewer than twice `limit` calls pass in any interval of length `ttl`, wherever it starts: one that meets two
      lifetimes misses the first hit of the earlier. */
  lemma FewerThanTwiceTheLimit(p: Policy, times: seq<int>, from: int)
    requires p.ttl > 0 && p.limit >= 1 && NonDecreasing(times)
    ensures During(Run(p, Fresh, times).passes, from, p.ttl) <= 2 * p.limit - 1
  {
    var passes := Run(p, Fresh, times).passes;
    assert Lifetimes(p, Fresh.passes);
    RunKeeps(p, Fresh, times);
    hide Run, OfLifetime, During;
    var a, b := TwoLifetimesMeet(p, passes, from);
    assert OfLifetime(passes, a) <= p.limit && OfLifetime(passes, b) <= p.limit;
    if a == b {
      OneLifetimeCovers(passes, from, p.ttl, a);
    } else if a < b {
      OneOutside(passes, from, p.ttl, a, b, Pass(a, a));
    } else {
      OneOutside(passes, from, p.ttl, b, a, Pass(b, b));
    }
  }

  // ---- blocking ---------------------------------------------------------------------------------------------------

  /** Once a call goes over the limit, and until the block it set runs out, no call passes and nothing changes. */
  lemma {:induction false} NonePassesWhileBlocked(p: Policy, s: State, now: int, later: seq<int>)
    requires BlockLeft(s.keys, now) <= 0 && Incremented(p, s.keys, now).count > p.limit
    requires forall t <- later :: now <= t < now + if p.blockDuration > 0 then p.blockDuration else p.ttl
    ensures Run(p, Call(p, s, now), later) == Call(p, s, now)
  {
    StaysBlocked(p, Call(p, s, now), now + BlockFor(p), later);
  }

  /** The block runs out after its duration, or after `ttl` where none is set; then a call passes exactly when the counter
      that went over the limit has run out too. */
  lemma BlockRunsOut(p: Policy, k: Keys, now: int, t: int)
    requires BlockLeft(k, now) <= 0 && Incremented(p, k, now).count > p.limit >= 1 && now <= t
    ensures var after, block := Step(p, k, now), if p.blockDuration > 0 then p.blockDuration else p.ttl;
            && (t < now + block ==> !Passes(p, after, t) && BlockLeft(after, t) == now + block - t)
            && (t >= now + block ==> (Passes(p, after, t) <==> t > Incremented(p, k, now).expires))
  {}

  lemma {:induction false} StaysBlocked(p: Policy, s: State, until: int, later: seq<int>)
    requires s.keys.block == Some(until) && forall t <- later :: t < until
    ensures Run(p, s, later) == s
    decreases |later|
  {
    if |later| > 0 {
      assert later[0] in later && forall t <- later[1..] :: t in later;
      StaysBlocked(p, s, until, later[1..]);
    }
  }

  lemma DuringAppend(passes: seq<Pass>, q: Pass, from: int, length: int)
    ensures During(passes + [q], from, length)
            == During(passes, from, length) + if from <= q.at <= from + length then 1 else 0
    ensures During([], from, length) == 0
  {
    assert (passes + [q])[..|passes + [q]| - 1] == passes;
  }

  lemma CallCounts(p: Policy, s: State, now: int, from: int, length: int)
    ensures During(Call(p, s, now).passes, from, length)
            == During(s.passes, from, length)
               + if Passes(p, s.keys, now) && from <= now <= from + length then 1 else 0
  {
    if Passes(p, s.keys, now) {
      DuringAppend(s.passes, Pass(now, Incremented(p, s.keys, now).expires - p.ttl), from, length);
    }
  }

  function Repeated(now: int, n: nat): seq<int> { if n == 0 then [] else [now] + Repeated(now, n - 1) }

  lemma {:induction false} RunOn(p: Policy, s: State, first: seq<int>, rest: seq<int>)
    ensures Run(p, s, first + rest) == Run(p, Run(p, s, first), rest)
    decreases |first|
  {
    if |first| == 0 {
      assert first + rest == rest;
    } else {
      assert (first + rest)[1..] == first[1..] + rest;
      RunOn(p, Call(p, s, first[0]), first[1..], rest);
    }
  }

  lemma RunOne(p: Policy, s: State, now: int, later: seq<int>)
    ensures Run(p, s, [now] + later) == Run(p, Call(p, s, now), later)
  {
    assert ([now] + later)[1..] == later;
  }

  /** A call the living counter has room for. */
  lemma AnotherPasses(p: Policy, s: State, h: Hits, now: int, from: int, length: int)
    requires s.keys == Keys(Some(h), None) && h.count >= 1 && now <= h.expires && h.count < p.limit
    ensures var t := Call(p, s, now);
            && t.keys == Keys(Some(Hits(h.count + 1, h.expires)), None)
            && During(t.passes, from, length)
               == During(s.passes, from, length) + if from <= now <= from + length then 1 else 0
  {
    CallCounts(p, s, now, from, length);
    hide During;
  }

  /** A call that begins a lifetime. */
  lemma FirstPasses(p: Policy, s: State, now: int, from: int, length: int)
    requires p.limit >= 1 && s.keys.block.None? && LiveHits(s.keys, now).None?
    ensures var t := Call(p, s, now);
            && t.keys == Keys(Some(Hits(1, now + p.ttl)), None)
            && During(t.passes, from, length)
               == During(s.passes, from, length) + if from <= now <= from + length then 1 else 0
  {
    CallCounts(p, s, now, from, length);
    hide During;
  }

  /** The state after `n` calls at one instant. */
  function Repeat(p: Policy, s: State, now: int, n: nat): State
    decreases n
  {
    if n == 0 then s else Repeat(p, Call(p, s, now), now, n - 1)
  }

  lemma {:induction false} RepeatIsRun(p: Policy, s: State, now: int, n: nat)
    ensures Run(p, s, Repeated(now, n)) == Repeat(p, s, now, n)
    decreases n
  {
    hide Call;
    if n > 0 {
      RunOne(p, s, now, Repeated(now, n - 1));
      RepeatIsRun(p, Call(p, s, now), now, n - 1);
    }
  }

  /** Calls at one instant that stay within the limit all pass, counted by the counter that lives then. */
  lemma {:induction false} RepeatedPass(p: Policy, s: State, h: Hits, now: int, n: nat, from: int, length: int)
    requires s.keys == Keys(Some(h), None) && h.count >= 1 && now <= h.expires && h.count + n <= p.limit
    requires from <= now <= from + length
    ensures var t := Repeat(p, s, now, n);
            t.keys == Keys(Some(Hits(h.count + n, h.expires)), None)
            && During(t.passes, from, length) == During(s.passes, from, length) + n
    decreases n
  {
    hide During, Call;
    if n > 0 {
      AnotherPasses(p, s, h, now, from, length);
      RepeatedPass(p, Call(p, s, now), Hits(h.count + 1, h.expires), now, n - 1, from, length);
    }
  }

  /** One call that begins a lifetime, the rest of the limit at its last instant, and the limit at the next. */
  function Burst(p: Policy): seq<int>
    requires p.limit >= 1
  {
    [0] + (Repeated(p.ttl, p.limit - 1) + ([p.ttl + 1] + Repeated(p.ttl + 1, p.limit - 1)))
  }

  function AfterBurst(p: Policy): State
    requires p.limit >= 1
  {
    var full := Repeat(p, Call(p, Fresh, 0), p.ttl, p.limit - 1);
    Repeat(p, Call(p, full, p.ttl + 1), p.ttl + 1, p.limit - 1)
  }

  lemma RunBurst(p: Policy)
    requires p.limit >= 1
    ensures Run(p, Fresh, Burst(p)) == AfterBurst(p)
  {
    hide Run, Repeated, Call, Repeat;
    var rest := Repeated(p.ttl + 1, p.limit - 1);
    var last := [p.ttl + 1] + rest;
    var s1 := Call(p, Fresh, 0);
    var s2 := Repeat(p, s1, p.ttl, p.limit - 1);
    RunOne(p, Fresh, 0, Repeated(p.ttl, p.limit - 1) + last);
    RunOn(p, s1, Repeated(p.ttl, p.limit - 1), last);
    RepeatIsRun(p, s1, p.ttl, p.limit - 1);
    RunOne(p, s2, p.ttl + 1, rest);
    RepeatIsRun(p, Call(p, s2, p.ttl + 1), p.ttl + 1, p.limit - 1);
  }

  lemma FullLifetime(p: Policy)
    requires p.ttl > 0 && p.limit >= 1
    ensures var s := Repeat(p, Call(p, Fresh, 0), p.ttl, p.limit - 1);
            && s.keys.block.None? && LiveHits(s.keys, p.ttl + 1).None?
            && During(s.passes, 1, p.ttl) == p.limit - 1
  {
    assert During(Fresh.passes, 1, p.ttl) == 0;
    hide During, Repeat, Call, Passes, Step;
    FirstPasses(p, Fresh, 0, 1, p.ttl);
    RepeatedPass(p, Call(p, Fresh, 0), Hits(1, p.ttl), p.ttl, p.limit - 1, 1, p.ttl);
  }

  /** Once a lifetime is over, the whole limit passes at the next instant. */
  lemma NextLifetime(p: Policy, s: State, now: int, from: int, length: int)
    requires p.limit >= 1 && p.ttl > 0 && s.keys.block.None? && LiveHits(s.keys, now).None?
    requires from <= now <= from + length
    ensures var t := Repeat(p, Call(p, s, now), now, p.limit - 1);
            During(t.passes, from, length) == During(s.passes, from, length) + p.limit
  {
    hide During, Repeat, Call;
    var t := Call(p, s, now);
    FirstPasses(p, s, now, from, length);
    var h := t.keys.hits.value;
    RepeatedPass(p, t, h, now, p.limit - 1, from, length);
  }

  lemma BurstPasses(p: Policy)
    requires p.ttl > 0 && p.limit >= 1
    ensures During(AfterBurst(p).passes, 1, p.ttl) == 2 * p.limit - 1
  {
    var full := Repeat(p, Call(p, Fresh, 0), p.ttl, p.limit - 1);
    assert AfterBurst(p) == Repeat(p, Call(p, full, p.ttl + 1), p.ttl + 1, p.limit - 1);
    hide *;
    FullLifetime(p);
    NextLifetime(p, full, p.ttl + 1, 1, p.ttl);
  }

  /** The bound is reached under every policy: the last calls of one lifetime and the first of the next fall into
      one interval. */
  lemma TheBoundIsReached(p: Policy)
    requires p.ttl > 0 && p.limit >= 1
    ensures During(Run(p, Fresh, Burst(p)).passes, 1, p.ttl) == 2 * p.limit - 1
  {
    hide During, Run, Burst, AfterBurst;
    RunBurst(p);
    BurstPasses(p);
  }
}
