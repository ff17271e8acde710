/** AI memory under calls that interleave and crash: each reads the live records of its fact, then saves its own
    record, then updates the records it read. */
module AiMemoryCalls {
  import opened AiMemory

  /** What a call is about to write. */
  datatype Stage =
    | Raising(record: nat, confidence: real)
    | Saving(input: Input, existing: seq<nat>, wins: bool)
    | Updating(saved: nat, existing: seq<nat>, wins: bool)

  function Read(records: seq<Record>, input: Input, now: int): Stage {
    var existing := Existing(records, input.fact, now);
    var same := FindSame(records, existing, input.contentHash);
    if same >= 0 then Raising(same, Max(records[same].merit.confidence, input.merit.confidence))
    else Saving(input, existing, ShouldSupersede(input.merit, Merits(records, existing)))
  }

  datatype World = World(records: seq<Record>, calls: map<nat, Stage>)

  const Start: World := World([], map[])

  datatype Event =
    | Reads(id: nat, input: Input, now: int)
    | Writes(id: nat, now: int)
    | Crashes(id: nat, now: int)
    | Deletes(gone: set<nat>, now: int)

  /** A deleted record keeps its place, expired. */
  function Deleted(records: seq<Record>, gone: set<nat>, now: int): (r: seq<Record>)
    ensures |r| == |records|
  {
    seq(|records|, i requires 0 <= i < |records| =>
      if i in gone && records[i].expiry > now then records[i].(expiry := now) else records[i])
  }

  /** The next write of a call, on whatever the records have become. */
  function Write(w: World, id: nat): World
    requires id in w.calls
  {
    var rest := w.calls - {id};
    match w.calls[id]
    case Raising(record, confidence) =>
      if record >= |w.records| then w.(calls := rest)
      else
        var merit := w.records[record].merit;
        World(w.records[record := w.records[record].(merit := merit.(confidence := confidence))], rest)
    case Saving(input, existing, wins) =>
      var record := Record(input.fact, input.contentHash, input.merit, input.expiry,
                           if wins then Active else Contradicted, set i <- existing);
      World(w.records + [record], if existing == [] then rest else w.calls[id := Updating(|w.records|, existing, wins)])
    case Updating(saved, existing, wins) => World(Linked(w.records, existing, saved, wins), rest)
  }

  function Apply(w: World, e: Event): World {
    match e
    case Reads(id, input, now) => if id in w.calls then w else w.(calls := w.calls[id := Read(w.records, input, now)])
    case Writes(id, _) => if id in w.calls then Write(w, id) else w
    case Crashes(id, _) => w.(calls := w.calls - {id})
    case Deletes(gone, now) => w.(records := Deleted(w.records, gone, now))
  }

  function Run(w: World, events: seq<Event>): World
    decreases |events|
  {
    if |events| == 0 then w else Run(Apply(w, events[0]), events[1..])
  }

  /** A call that nothing comes between is `remember`. */
  lemma LoneCallRemembers(w: World, id: nat, input: Input, now: int)
    requires id !in w.calls
    ensures Run(w, [Reads(id, input, now), Writes(id, now), Writes(id, now)])
            == World(Remembered(w.records, input, now), w.calls)
  {
    var write := Writes(id, now);
    var w1 := Apply(w, Reads(id, input, now));
    RunOn(w, Reads(id, input, now), [write, write]);
    RunOn(w1, write, [write]);
    RunOn(Apply(w1, write), write, []);
    assert w1.calls - {id} == w.calls;
    hide Run, ShouldSupersede, Merits, Existing, FindSame;
    if w1.calls[id].Saving? {
      SaveThenUpdate(w1, id, now);
      hide Apply, Linked;
    }
  }

  lemma SaveThenUpdate(w: World, id: nat, now: int)
    requires id in w.calls && w.calls[id].Saving? && forall k <- w.calls[id].existing :: k < |w.records|
    ensures var after, stage, n := Apply(Apply(w, Writes(id, now)), Writes(id, now)), w.calls[id], |w.records|;
            var record := Record(stage.input.fact, stage.input.contentHash, stage.input.merit, stage.input.expiry,
                                 if stage.wins then Active else Contradicted, set k <- stage.existing);
            after == World(Linked(w.records, stage.existing, n, stage.wins) + [record], w.calls - {id})
  {
    var saved, stage, n := Write(w, id), w.calls[id], |w.records|;
    if stage.existing == [] {
      assert Linked(w.records, [], n, stage.wins) == w.records;
    } else {
      assert saved.calls - {id} == w.calls - {id};
      assert Linked(saved.records, stage.existing, n, stage.wins)
          == Linked(w.records, stage.existing, n, stage.wins) + [saved.records[n]];
    }
  }

  lemma RunOn(w: World, e: Event, rest: seq<Event>)
    ensures Run(w, [e] + rest) == Run(Apply(w, e), rest)
  {
    hide Apply;
    assert ([e] + rest)[1..] == rest;
  }

  // ---- one active record at every moment --------------------------------------------------------------------------

  predicate LivePair(records: seq<Record>, i: nat, j: nat, now: int) {
    && i < |records| && j < |records| && i != j && records[i].fact == records[j].fact
    && Live(records[i], records[i].fact, now) && Live(records[j], records[j].fact, now)
  }

  /** The event saves a record that is active and unexpired. */
  predicate SavesActive(w: World, e: Event) {
    && e.Writes? && e.id in w.calls && w.calls[e.id].Saving?
    && w.calls[e.id].wins && w.calls[e.id].input.expiry > e.now
  }

  /** It does so while a record of the fact is live, whether the call read that record or not. */
  predicate Crowds(w: World, e: Event) {
    && SavesActive(w, e)
    && exists j :: 0 <= j < |w.records| && Live(w.records[j], w.calls[e.id].input.fact, e.now)
  }

  /** What a write does to the records, place by place. */
  lemma WrittenAt(w: World, id: nat)
    requires id in w.calls
    ensures var stage, after, n := w.calls[id], Write(w, id).records, |w.records|;
            && |after| == (if stage.Saving? then n + 1 else n)
            && (forall i :: 0 <= i < n ==>
                  && after[i].fact == w.records[i].fact && after[i].expiry == w.records[i].expiry
                  && after[i].status == (if stage.Updating? && stage.wins && i in stage.existing then Superseded
                                         else w.records[i].status))
            && (stage.Saving? ==>
                  && after[n].fact == stage.input.fact && after[n].expiry == stage.input.expiry
                  && after[n].status == if stage.wins then Active else Contradicted)
  {}

  lemma StepKeepsOneIff(w: World, e: Event)
    requires OneActive(w.records, e.now)
    ensures OneActive(Apply(w, e).records, e.now) <==> !Crowds(w, e)
  {
    if e.Writes? && e.id in w.calls {
      WrittenAt(w, e.id);
      var after, n := Write(w, e.id).records, |w.records|;
      hide Write;
      if Crowds(w, e) {
        var j :| 0 <= j < n && Live(w.records[j], w.calls[e.id].input.fact, e.now);
        assert Live(after[j], after[j].fact, e.now) && Live(after[n], after[n].fact, e.now);
      }
    }
  }

  predicate Ordered(events: seq<Event>, start: int)
    decreases |events|
  {
    |events| == 0 || (start <= events[0].now && Ordered(events[1..], events[0].now))
  }

  /** After every step of the run each fact has at most one active, unexpired record. */
  predicate AlwaysOne(w: World, events: seq<Event>)
    decreases |events|
  {
    |events| == 0 ||
    (OneActive(Apply(w, events[0]).records, events[0].now) && AlwaysOne(Apply(w, events[0]), events[1..]))
  }

  predicate SomeCrowds(w: World, events: seq<Event>)
    decreases |events|
  {
    |events| > 0 && (Crowds(w, events[0]) || SomeCrowds(Apply(w, events[0]), events[1..]))
  }

  lemma OneActiveLater(records: seq<Record>, now: int, later: int)
    requires OneActive(records, now) && now <= later
    ensures OneActive(records, later)
  {}

  lemma {:induction false} OneUntilCrowded(w: World, events: seq<Event>, start: int)
    requires OneActive(w.records, start) && Ordered(events, start)
    ensures AlwaysOne(w, events) <==> !SomeCrowds(w, events)
    decreases |events|
  {
    if |events| > 0 {
      OneActiveLater(w.records, start, events[0].now);
      StepKeepsOneIff(w, events[0]);
      hide OneActive, Apply, Crowds;
      if !Crowds(w, events[0]) { OneUntilCrowded(Apply(w, events[0]), events[1..], events[0].now); }
    }
  }

  /** However calls interleave and crash, on a clock that never goes back: every fact has at most one active,
      unexpired record at every moment exactly when no winning record is ever saved while another of its fact is
      live. Every replacement of a live record breaks this until its update. */
  lemma OneActiveThroughoutIffNoneCrowds(events: seq<Event>, start: int)
    requires Ordered(events, start)
    ensures AlwaysOne(Start, events) <==> !SomeCrowds(Start, events)
  {
    OneUntilCrowded(Start, events, start);
  }

  // ---- one record to stay -----------------------------------------------------------------------------------------

  /** The call has won and is still to supersede the record. */
  predicate WillSupersede(w: World, call: nat, record: nat) {
    call in w.calls && w.calls[call].Updating? && w.calls[call].wins && record in w.calls[call].existing
  }

  /** Some call other than the one named will supersede the record. */
  predicate Doomed(w: World, record: nat, but: set<nat>) {
    exists c <- w.calls :: c !in but && WillSupersede(w, c, record)
  }

  /** Of any two live records of a fact one is about to be superseded. */
  ghost predicate OneToStay(w: World, now: int) {
    forall i, j :: LivePair(w.records, i, j, now) ==> Doomed(w, i, {}) || Doomed(w, j, {})
  }

  /** It saves an active record beside a live one of the fact that it has not read and nobody will supersede. */
  predicate Overlooks(w: World, e: Event) {
    && SavesActive(w, e)
    && var stage := w.calls[e.id];
    && exists j :: 0 <= j < |w.records| && Live(w.records[j], stage.input.fact, e.now)
                   && j !in stage.existing && !Doomed(w, j, {})
  }

  /** It crashes before superseding a record that lives on beside another, and nobody else will supersede either. */
  ghost predicate Abandons(w: World, e: Event) {
    && e.Crashes?
    && exists i, j :: && WillSupersede(w, e.id, i) && LivePair(w.records, i, j, e.now)
                      && !Doomed(w, i, {e.id}) && !Doomed(w, j, {e.id})
  }

  /** Calls know stored records only. */
  predicate Grounded(w: World) {
    forall c <- w.calls :: !w.calls[c].Raising? ==> forall id <- w.calls[c].existing :: id < |w.records|
  }

  lemma ApplyKeepsGrounded(w: World, e: Event)
    requires Grounded(w)
    ensures Grounded(Apply(w, e))
  {
    hide FindSame, ShouldSupersede, Merits;
    if e.Writes? && e.id in w.calls { WrittenAt(w, e.id); }
  }

  lemma ReadKeepsToStay(w: World, e: Event)
    requires e.Reads? && OneToStay(w, e.now)
    ensures OneToStay(Apply(w, e), e.now)
  {
    var after := Apply(w, e);
    forall i, j | LivePair(after.records, i, j, e.now) ensures Doomed(after, i, {}) || Doomed(after, j, {}) {
      assert LivePair(w.records, i, j, e.now);
      var k := if Doomed(w, i, {}) then i else j;
      var c :| c in w.calls && WillSupersede(w, c, k);
      assert WillSupersede(after, c, k);
    }
  }

  lemma DeleteKeepsToStay(w: World, gone: set<nat>, now: int)
    requires OneToStay(w, now)
    ensures OneToStay(w.(records := Deleted(w.records, gone, now)), now)
  {
    var after := w.(records := Deleted(w.records, gone, now));
    forall k ensures Doomed(after, k, {}) <==> Doomed(w, k, {}) {
      if c :| c in w.calls && WillSupersede(w, c, k) { assert WillSupersede(after, c, k); }
      if c :| c in after.calls && WillSupersede(after, c, k) { assert WillSupersede(w, c, k); }
    }
    forall i, j | LivePair(after.records, i, j, now) ensures LivePair(w.records, i, j, now) {}
    hide Doomed, LivePair;
  }

  lemma CrashKeepsToStayIff(w: World, e: Event)
    requires e.Crashes? && OneToStay(w, e.now)
    ensures OneToStay(Apply(w, e), e.now) <==> !Abandons(w, e)
  {
    var after := Apply(w, e);
    forall k ensures Doomed(after, k, {}) <==> Doomed(w, k, {e.id}) {
      if c :| c in after.calls && WillSupersede(after, c, k) { assert WillSupersede(w, c, k); }
      if c :| c in w.calls && c !in {e.id} && WillSupersede(w, c, k) { assert WillSupersede(after, c, k); }
    }
    forall k | Doomed(w, k, {}) ensures Doomed(w, k, {e.id}) || WillSupersede(w, e.id, k) {}
    hide Doomed, WillSupersede;
  }

  /** An update supersedes what it was to supersede, so it neither helps nor harms. */
  lemma UpdateKeepsToStay(w: World, id: nat, now: int)
    requires id in w.calls && !w.calls[id].Saving?
    ensures OneToStay(Write(w, id), now) <==> OneToStay(w, now)
  {
    var after := Write(w, id);
    WrittenAt(w, id);
    assert after.calls == w.calls - {id};
    hide Write;
    forall k ensures Doomed(w, k, {}) <==> Doomed(after, k, {}) || WillSupersede(w, id, k) {
      if c :| c in after.calls && WillSupersede(after, c, k) { assert WillSupersede(w, c, k); }
      if c :| c in w.calls && WillSupersede(w, c, k) { assert c == id || WillSupersede(after, c, k); }
    }
    hide Doomed;
    forall i, j
      ensures LivePair(after.records, i, j, now) <==>
              LivePair(w.records, i, j, now) && !WillSupersede(w, id, i) && !WillSupersede(w, id, j) {}
    hide LivePair, WillSupersede;
  }

  lemma SaveKeepsToStayIff(w: World, e: Event)
    requires Grounded(w) && e.Writes? && e.id in w.calls && w.calls[e.id].Saving? && OneToStay(w, e.now)
    ensures OneToStay(Apply(w, e), e.now) <==> !Overlooks(w, e)
  {
    var after, n, stage := Apply(w, e), |w.records|, w.calls[e.id];
    WrittenAt(w, e.id);
    forall k: nat ensures Doomed(after, k, {}) <==> Doomed(w, k, {}) || (stage.wins && k in stage.existing) {
      if c :| c in w.calls && WillSupersede(w, c, k) { assert WillSupersede(after, c, k); }
      if c :| c in after.calls && WillSupersede(after, c, k) { assert c == e.id || WillSupersede(w, c, k); }
      if stage.wins && k in stage.existing { assert WillSupersede(after, e.id, k); }
    }
    assert !Doomed(w, n, {}) && n !in stage.existing;
    hide Doomed, Apply, Grounded;
    forall i: nat, j: nat | i < n && j < n
      ensures LivePair(after.records, i, j, e.now) <==> LivePair(w.records, i, j, e.now) {}
    forall j: nat | j < n
      ensures LivePair(after.records, j, n, e.now) <==>
              SavesActive(w, e) && Live(w.records[j], stage.input.fact, e.now) {}
    if Overlooks(w, e) {
      var j :| 0 <= j < n && Live(w.records[j], stage.input.fact, e.now) && j !in stage.existing && !Doomed(w, j, {});
      assert LivePair(after.records, j, n, e.now);
    } else {
      forall i, j | LivePair(after.records, i, j, e.now) ensures Doomed(after, i, {}) || Doomed(after, j, {}) {
        if i == n { assert LivePair(after.records, j, n, e.now); }
      }
    }
  }

  /** One step leaves one record to stay exactly when it neither overlooks a live record nor abandons one. */
  lemma StepKeepsToStayIff(w: World, e: Event)
    requires Grounded(w) && OneToStay(w, e.now)
    ensures OneToStay(Apply(w, e), e.now) <==> !Overlooks(w, e) && !Abandons(w, e)
  {
    match e
    case Reads(_, _, _) => ReadKeepsToStay(w, e);
    case Crashes(_, _) => CrashKeepsToStayIff(w, e);
    case Deletes(gone, now) => DeleteKeepsToStay(w, gone, now);
    case Writes(id, now) =>
      if id in w.calls {
        if w.calls[id].Saving? { SaveKeepsToStayIff(w, e); } else { UpdateKeepsToStay(w, id, now); }
      }
      hide OneToStay, Write;
  }

  ghost predicate AlwaysToStay(w: World, events: seq<Event>)
    decreases |events|
  {
    |events| == 0 || (OneToStay(Apply(w, events[0]), events[0].now) && AlwaysToStay(Apply(w, events[0]), events[1..]))
  }

  ghost predicate SomeLost(w: World, events: seq<Event>)
    decreases |events|
  {
    |events| > 0 &&
    (Overlooks(w, events[0]) || Abandons(w, events[0]) || SomeLost(Apply(w, events[0]), events[1..]))
  }

  lemma ToStayLater(w: World, now: int, later: int)
    requires OneToStay(w, now) && now <= later
    ensures OneToStay(w, later)
  {
    hide Doomed;
    forall i, j | LivePair(w.records, i, j, later) ensures LivePair(w.records, i, j, now) {}
    hide LivePair;
  }

  lemma {:induction false} ToStayUntilLost(w: World, events: seq<Event>, start: int)
    requires Grounded(w) && OneToStay(w, start) && Ordered(events, start)
    ensures AlwaysToStay(w, events) <==> !SomeLost(w, events)
    ensures !SomeLost(w, events) ==> OneToStay(Run(w, events), if events == [] then start else events[|events| - 1].now)
    decreases |events|
  {
    if |events| > 0 {
      ToStayLater(w, start, events[0].now);
      StepKeepsToStayIff(w, events[0]);
      ApplyKeepsGrounded(w, events[0]);
      hide OneToStay, Apply, Overlooks, Abandons, Grounded;
      if OneToStay(Apply(w, events[0]), events[0].now) {
        ToStayUntilLost(Apply(w, events[0]), events[1..], events[0].now);
      }
    }
  }

  /** However calls interleave and crash, on a clock that never goes back: throughout the run all but one of a
      fact's live records are about to be superseded, exactly when no call saves a winning record beside a live one
      it overlooks, and none crashes abandoning one it was to supersede. */
  lemma OneToStayThroughoutIffNoneLost(events: seq<Event>, start: int)
    requires Ordered(events, start)
    ensures AlwaysToStay(Start, events) <==> !SomeLost(Start, events)
  {
    ToStayUntilLost(Start, events, start);
  }

  // ---- what it means for one record to stay -----------------------------------------------------------------------

  /** The last writes of the calls named, in that order. */
  function Settled(w: World, ids: seq<nat>): World
    decreases |ids|
  {
    if |ids| == 0 then w
    else Settled(if ids[0] in w.calls && w.calls[ids[0]].Updating? then Write(w, ids[0]) else w, ids[1..])
  }

  predicate NonePending(w: World, but: seq<nat>) {
    forall c <- w.calls :: c !in but ==> !w.calls[c].Updating?
  }

  lemma NonePendingMeansOne(w: World, now: int)
    requires NonePending(w, [])
    ensures OneToStay(w, now) <==> OneActive(w.records, now)
  {
    forall k ensures !Doomed(w, k, {}) {}
    hide Doomed;
    if OneActive(w.records, now) {
      forall i, j ensures !LivePair(w.records, i, j, now) {
        if LivePair(w.records, i, j, now) { OnlyOne(w.records, i, j, now); }
      }
    } else {
      var i, j :| 0 <= i < j < |w.records| && w.records[i].fact == w.records[j].fact
                  && Live(w.records[i], w.records[i].fact, now) && Live(w.records[j], w.records[j].fact, now);
      assert LivePair(w.records, i, j, now);
    }
  }

  /** Of any two live records one is about to be superseded exactly when the updates still to come, in whatever order
      they come, leave at most one. */
  lemma {:induction false} ToStayIffSettledHasOne(w: World, ids: seq<nat>, now: int)
    requires NonePending(w, ids)
    ensures OneToStay(w, now) <==> OneActive(Settled(w, ids).records, now)
    decreases |ids|
  {
    hide OneToStay, OneActive, Write;
    if |ids| == 0 {
      NonePendingMeansOne(w, now);
    } else {
      var next := if ids[0] in w.calls && w.calls[ids[0]].Updating? then Write(w, ids[0]) else w;
      if ids[0] in w.calls && w.calls[ids[0]].Updating? {
        UpdateKeepsToStay(w, ids[0], now);
        UpdateEnds(w, ids[0]);
      }
      assert NonePending(next, ids[1..]);
      ToStayIffSettledHasOne(next, ids[1..], now);
    }
  }

  lemma UpdateEnds(w: World, id: nat)
    requires id in w.calls && w.calls[id].Updating?
    ensures Write(w, id).calls == w.calls - {id}
  {}

  /** So a run in which nothing is overlooked or abandoned leaves at most one live record of each fact whenever no call
      is between its two writes. */
  lemma OneActiveAtRest(events: seq<Event>, start: int)
    requires events != [] && Ordered(events, start) && !SomeLost(Start, events)
    requires NonePending(Run(Start, events), [])
    ensures OneActive(Run(Start, events).records, events[|events| - 1].now)
  {
    ToStayUntilLost(Start, events, start);
    NonePendingMeansOne(Run(Start, events), events[|events| - 1].now);
  }

  // ---- runs in which two stay -------------------------------------------------------------------------------------

  /** Two calls that both read before either saves can both win. */
  lemma TwoFirstCallsBothWin(a: Input, b: Input, now: int)
    requires a.fact == b.fact && a.expiry > now && b.expiry > now
    ensures var w := Run(Start, [Reads(0, a, now), Reads(1, b, now), Writes(0, now), Writes(1, now)]);
            w.calls == map[] && LivePair(w.records, 0, 1, now)
  {
    var e := [Reads(0, a, now), Reads(1, b, now), Writes(0, now), Writes(1, now)];
    RunFour(Start, e[0], e[1], e[2], e[3]);
    hide Run, LivePair;
    var w1 := Apply(Start, e[0]);
    assert w1.calls[0] == Saving(a, [], true);
    var w2 := Apply(w1, e[1]);
    assert w2.calls == map[0 := Saving(a, [], true), 1 := Saving(b, [], true)];
    var w3 := Apply(w2, e[2]);
    WrittenAt(w2, 0);
    assert w3.calls == map[1 := Saving(b, [], true)];
    WrittenAt(w3, 1);
    assert Apply(w3, e[3]).calls == map[];
    assert LivePair(Apply(w3, e[3]).records, 0, 1, now) by { hide Write; }
  }

  /** A call that replaces a live record leaves two live ones between its writes, and for good if it crashes there. */
  lemma CrashBetweenWritesLeavesTwo(w: World, r: nat, id: nat, input: Input, now: int)
    requires OneActive(w.records, now) && r < |w.records| && Live(w.records[r], input.fact, now) && id !in w.calls
    requires AtLeast(input.merit, w.records[r].merit) && input.contentHash != w.records[r].contentHash
    requires input.expiry > now
    ensures Crowds(Apply(w, Reads(id, input, now)), Writes(id, now))
    ensures var after := Run(w, [Reads(id, input, now), Writes(id, now), Crashes(id, now)]);
            after.calls == w.calls && LivePair(after.records, r, |w.records|, now)
  {
    var read, write, crash := Reads(id, input, now), Writes(id, now), Crashes(id, now);
    ReadsToReplace(w.records, r, input, now);
    var w1 := Apply(w, read);
    var w2 := Apply(w1, write);
    RunOn(w, read, [write, crash]);
    RunOn(w1, write, [crash]);
    RunOn(w2, crash, []);
    hide Run, Read;
    assert w1.calls[id] == Saving(input, [r], true);
    WrittenAt(w1, id);
    assert w2.calls - {id} == w.calls;
    hide Write;
  }

  lemma ReadsToReplace(records: seq<Record>, r: nat, input: Input, now: int)
    requires OneActive(records, now) && r < |records| && Live(records[r], input.fact, now)
    requires AtLeast(input.merit, records[r].merit) && input.contentHash != records[r].contentHash
    ensures Read(records, input, now) == Saving(input, [r], true)
  {
    var existing := Existing(records, input.fact, now);
    AtMostOneExisting(records, input.fact, now);
    assert r in existing;
    assert existing == [r];
    SupersedesIffAtLeastLive(records, input, now);
    hide Existing, ShouldSupersede, AtLeast;
    forall j | 0 <= j < |records| && Live(records[j], input.fact, now) ensures j == r {
      assert j in existing;
    }
  }

  lemma RunFour(w: World, a: Event, b: Event, c: Event, d: Event)
    ensures Run(w, [a, b, c, d]) == Apply(Apply(Apply(Apply(w, a), b), c), d)
  {
    hide Apply;
    RunOn(w, a, [b, c, d]);
    RunOn(Apply(w, a), b, [c, d]);
    RunOn(Apply(Apply(w, a), b), c, [d]);
    RunOn(Apply(Apply(Apply(w, a), b), c), d, []);
  }
}
