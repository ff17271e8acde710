/** The consumer inbox: deduplication, failure counting and quarantine for one event at one consumer. */
module InboxProtocol {

  const MAX_FAILURES := 10

  datatype Row = Absent | Processing | Processed | Failed

  datatype Failure = Failure(attempt: nat, quarantined: bool)

  /** Where one `consume` call stands, between the store operations it awaits. The two writes of
      `Recording` are issued together and land in either order. */
  datatype Stage =
    | Inserting
    | Handling
    | MarkingProcessed
    | CountingFailures
    | Recording(attempt: nat, marked: bool, saved: bool)
    | Deleting
    | Duplicate
    | Succeeded
    | Threw

  /** The inbox row and failure rows of the event, the calls of `consume`, and two histories: how often the
      handler was invoked and how often it completed. */
  datatype World = World(
    row: Row,
    failures: seq<Failure>,
    calls: map<nat, Stage>,
    invocations: nat,
    completions: nat)

  datatype Event =
    | Deliver(id: nat)
    | Act(id: nat, handlerSucceeds: bool, markFirst: bool)
    | Crash(id: nat)

  const START := World(Absent, [], map[], 0, 0)

  function MarkFailed(row: Row): Row { if row == Absent then Absent else Failed }

  function AfterRecording(attempt: nat): Stage { if attempt >= MAX_FAILURES then Threw else Deleting }

  function Move(w: World, id: nat, stage: Stage): World { w.(calls := w.calls[id := stage]) }

  function ActOf(w: World, id: nat, handlerSucceeds: bool, markFirst: bool): World
    requires id in w.calls
  {
    match w.calls[id]
    case Inserting =>
      if w.row != Absent then Move(w, id, Duplicate)
      else Move(w, id, Handling).(row := Processing, invocations := w.invocations + 1)
    case Handling =>
      if handlerSucceeds then Move(w, id, MarkingProcessed).(completions := w.completions + 1)
      else Move(w, id, CountingFailures)
    case MarkingProcessed =>
      Move(w, id, Succeeded).(row := if w.row == Absent then Absent else Processed)
    case CountingFailures => Move(w, id, Recording(|w.failures| + 1, false, false))
    case Recording(attempt, marked, saved) =>
      if !marked && (markFirst || saved) then
        Move(w, id, if saved then AfterRecording(attempt) else Recording(attempt, true, saved))
          .(row := MarkFailed(w.row))
      else if !saved then
        Move(w, id, if marked then AfterRecording(attempt) else Recording(attempt, marked, true))
          .(failures := w.failures + [Failure(attempt, attempt >= MAX_FAILURES)])
      else Move(w, id, AfterRecording(attempt))
    case Deleting => Move(w, id, Threw).(row := if w.row == Failed then Absent else w.row)
    case Duplicate => w
    case Succeeded => w
    case Threw => w
  }

  function Apply(w: World, e: Event): World {
    match e
    case Deliver(id) => if id in w.calls then w else Move(w, id, Inserting)
    case Act(id, handlerSucceeds, markFirst) =>
      if id in w.calls then ActOf(w, id, handlerSucceeds, markFirst) else w
    case Crash(id) => w.(calls := w.calls - {id})
  }

  function Run(w: World, events: seq<Event>): World
    decreases |events|
  {
    if |events| == 0 then w else Run(Apply(w, events[0]), events[1..])
  }

  // ---- the invariant -----------------------------------------------------------------------------------

  /** The call inserted the row and has not finished with it. */
  predicate Owns(stage: Stage) {
    stage.Handling? || stage.MarkingProcessed? || stage.CountingFailures? || stage.Recording? || stage.Deleting?
  }

  /** What an owning call knows of the rows. */
  predicate OwnerSees(w: World, stage: Stage) {
    match stage
    case Handling => w.row == Processing && w.invocations == |w.failures| + 1 && w.completions == 0
    case MarkingProcessed => w.row == Processing && w.completions == 1
    case CountingFailures => w.row == Processing && w.invocations == |w.failures| + 1 && w.completions == 0
    case Recording(attempt, marked, saved) =>
      && w.row == (if marked then Failed else Processing)
      && !(marked && saved)
      && w.completions == 0 && w.invocations == attempt
      && attempt == |w.failures| + (if saved then 0 else 1)
    case Deleting =>
      w.row == Failed && w.completions == 0 && w.invocations == |w.failures| < MAX_FAILURES
    case _ => true
  }

  predicate Sound(w: World) {
    && (forall i <- w.calls, j <- w.calls :: Owns(w.calls[i]) && Owns(w.calls[j]) ==> i == j)
    && (forall i <- w.calls :: OwnerSees(w, w.calls[i]))
    && (w.row == Processed ==> w.completions == 1 && forall i <- w.calls :: !Owns(w.calls[i]))
    && (w.row == Absent ==>
          && w.invocations == |w.failures| < MAX_FAILURES && w.completions == 0
          && forall i <- w.calls :: !Owns(w.calls[i]))
    && w.completions <= 1
    && |w.failures| <= w.invocations <= |w.failures| + 1
    && w.invocations <= MAX_FAILURES
    && (forall i :: 0 <= i < |w.failures| ==>
          w.failures[i] == Failure(i + 1, i + 1 >= MAX_FAILURES))
  }

  lemma InsertKeeps(w: World, id: nat, handlerSucceeds: bool, markFirst: bool)
    requires Sound(w) && id in w.calls && w.calls[id].Inserting?
    ensures Sound(ActOf(w, id, handlerSucceeds, markFirst))
  {}

  lemma HandleKeeps(w: World, id: nat, handlerSucceeds: bool, markFirst: bool)
    requires Sound(w) && id in w.calls
    requires w.calls[id].Handling? || w.calls[id].MarkingProcessed? || w.calls[id].CountingFailures?
    ensures Sound(ActOf(w, id, handlerSucceeds, markFirst))
  {}

  lemma RecordKeeps(w: World, id: nat, handlerSucceeds: bool, markFirst: bool)
    requires Sound(w) && id in w.calls && (w.calls[id].Recording? || w.calls[id].Deleting?)
    ensures Sound(ActOf(w, id, handlerSucceeds, markFirst))
  {}

  lemma ApplyKeeps(w: World, e: Event)
    requires Sound(w)
    ensures Sound(Apply(w, e))
  {
    if e.Act? {
      hide Sound, ActOf;
      if e.id in w.calls {
        var stage := w.calls[e.id];
        if stage.Inserting? {
          InsertKeeps(w, e.id, e.handlerSucceeds, e.markFirst);
        } else if stage.Recording? || stage.Deleting? {
          RecordKeeps(w, e.id, e.handlerSucceeds, e.markFirst);
        } else if stage.Duplicate? || stage.Succeeded? || stage.Threw? {
          FinishedStays(w, e.id, e.handlerSucceeds, e.markFirst);
        } else {
          HandleKeeps(w, e.id, e.handlerSucceeds, e.markFirst);
        }
      }
    } else {
      hide ActOf;
    }
  }

  lemma FinishedStays(w: World, id: nat, handlerSucceeds: bool, markFirst: bool)
    requires id in w.calls && (w.calls[id].Duplicate? || w.calls[id].Succeeded? || w.calls[id].Threw?)
    ensures ActOf(w, id, handlerSucceeds, markFirst) == w
  {}

  lemma {:induction false} RunKeeps(w: World, events: seq<Event>)
    requires Sound(w)
    ensures Sound(Run(w, events))
    decreases |events|
  {
    if |events| != 0 {
      ApplyKeeps(w, events[0]);
      RunKeeps(Apply(w, events[0]), events[1..]);
    }
  }

  /** Under every interleaving and any crashes: never two handlers at once, at most one completion, at most
      ten invocations, and failure rows numbered one to ten of which exactly the tenth is quarantined. */
  lemma HandledAtMostOnce(events: seq<Event>)
    ensures var w := Run(START, events);
            && (forall i <- w.calls, j <- w.calls :: w.calls[i].Handling? && w.calls[j].Handling? ==> i == j)
            && w.completions <= 1
            && w.invocations <= 10
            && |w.failures| <= 10
            && (forall i :: 0 <= i < |w.failures| ==> w.failures[i].attempt == i + 1)
            && (forall i :: 0 <= i < |w.failures| ==> (w.failures[i].quarantined <==> i == 9))
  {
    RunKeeps(START, events);
  }

  // ---- what can still happen ---------------------------------------------------------------------------

  /** Some call may yet free the row: a handler still running, or a failure being recorded, with attempts
      left. */
  predicate MayFree(w: World, stage: Stage) {
    || (stage.Handling? && |w.failures| + 1 < MAX_FAILURES)
    || (stage.CountingFailures? && |w.failures| + 1 < MAX_FAILURES)
    || (stage.Recording? && stage.attempt < MAX_FAILURES)
    || stage.Deleting?
  }

  predicate Open(w: World) {
    w.row == Absent || exists i <- w.calls :: MayFree(w, w.calls[i])
  }

  lemma ClosedStaysClosed(w: World, e: Event)
    requires Sound(w) && !Open(w)
    ensures !Open(Apply(w, e)) && Apply(w, e).invocations == w.invocations
    ensures forall i <- Apply(w, e).calls :: !Apply(w, e).calls[i].Handling? || (i in w.calls && w.calls[i].Handling?)
  {
    var t := Apply(w, e);
    assert forall i <- w.calls :: !MayFree(w, w.calls[i]);
    forall i <- t.calls ensures !MayFree(t, t.calls[i]) {
      if i in w.calls { assert !MayFree(w, w.calls[i]); }
    }
  }

  lemma {:induction false} ClosedForever(w: World, events: seq<Event>)
    requires Sound(w) && !Open(w)
    ensures Run(w, events).invocations == w.invocations
    decreases |events|
  {
    if |events| != 0 {
      ApplyKeeps(w, events[0]);
      ClosedStaysClosed(w, events[0]);
      ClosedForever(Apply(w, events[0]), events[1..]);
    }
  }

  lemma RunCons(w: World, e: Event, events: seq<Event>)
    ensures Run(w, [e] + events) == Run(Apply(w, e), events)
  {
    assert ([e] + events)[1..] == events;
  }

  /** A delivery to a free row invokes the handler. */
  lemma DeliverInvokes(w: World, id: nat) returns (events: seq<Event>)
    requires Sound(w) && w.row == Absent
    ensures Run(w, events).invocations == w.invocations + 1
  {
    events := [Crash(id)] + ([Deliver(id)] + ([Act(id, true, true)] + []));
    RunCons(w, Crash(id), [Deliver(id)] + ([Act(id, true, true)] + []));
    RunCons(Apply(w, Crash(id)), Deliver(id), [Act(id, true, true)] + []);
    RunCons(Apply(Apply(w, Crash(id)), Deliver(id)), Act(id, true, true), []);
  }

  function StepsToFree(stage: Stage): nat {
    match stage
    case Handling => 5
    case CountingFailures => 4
    case Recording(_, marked, saved) => if marked || saved then 2 else 3
    case Deleting => 1
    case _ => 0
  }

  lemma {:induction false} OwnerFrees(w: World, id: nat) returns (events: seq<Event>)
    requires Sound(w) && id in w.calls && MayFree(w, w.calls[id])
    ensures Run(w, events).invocations == w.invocations + 1
    decreases StepsToFree(w.calls[id])
  {
    var e := Act(id, false, true);
    var t := Apply(w, e);
    ApplyKeeps(w, e);
    var rest;
    if w.calls[id].Deleting? {
      rest := DeliverInvokes(t, id);
    } else {
      rest := OwnerFrees(t, id);
    }
    events := [e] + rest;
    RunCons(w, e, rest);
  }

  /** The handler can be invoked again exactly when the row is free or a call that may free it is alive. So
      after a success or a quarantine every delivery is a duplicate, and so it is after a crash that left
      the row behind. */
  lemma InvokedAgainIffOpen(w: World)
    requires Sound(w)
    ensures (exists events: seq<Event> :: Run(w, events).invocations > w.invocations) <==> Open(w)
  {
    if Open(w) {
      var events;
      if w.row == Absent {
        events := DeliverInvokes(w, 0);
      } else {
        var id :| id in w.calls && MayFree(w, w.calls[id]);
        events := OwnerFrees(w, id);
      }
      assert Run(w, events).invocations > w.invocations;
    } else {
      forall events: seq<Event> ensures Run(w, events).invocations == w.invocations {
        ClosedForever(w, events);
      }
    }
  }

  /** The handler succeeded, or its tenth failure is recorded. */
  predicate Settled(w: World) {
    w.row == Processed || |w.failures| >= MAX_FAILURES
  }

  lemma {:induction false} SettledReportsDuplicates(w: World, events: seq<Event>)
    requires Sound(w) && Settled(w)
    ensures var t := Run(w, events);
            && Settled(t) && t.invocations == w.invocations && t.completions == w.completions
            && forall i <- t.calls :: i !in w.calls || w.calls[i].Inserting? || w.calls[i].Duplicate? ==>
                 t.calls[i].Inserting? || t.calls[i].Duplicate?
    decreases |events|
  {
    if |events| != 0 {
      ApplyKeeps(w, events[0]);
      var next := Apply(w, events[0]);
      SettledReportsDuplicates(next, events[1..]);
    }
  }

  /** Without crashes the row is always free, owned or settled: no event is ever stranded. */
  lemma {:induction false} CrashFreeRunsStayOpenOrSettled(w: World, events: seq<Event>)
    requires Sound(w)
    requires w.row == Absent || Settled(w) || exists i <- w.calls :: Owns(w.calls[i])
    requires forall e <- events :: !e.Crash?
    ensures var t := Run(w, events);
            t.row == Absent || Settled(t) || exists i <- t.calls :: Owns(t.calls[i])
    decreases |events|
  {
    if |events| != 0 {
      var e := events[0];
      var next := Apply(w, e);
      ApplyKeeps(w, e);
      if !(w.row == Absent || Settled(w)) {
        var i :| i in w.calls && Owns(w.calls[i]);
        assert i in next.calls;
        assert Owns(next.calls[i]) || next.row == Absent || Settled(next);
      } else if w.row == Absent && e.Act? && e.id in w.calls && w.calls[e.id].Inserting? {
        assert Owns(next.calls[e.id]);
      }
      CrashFreeRunsStayOpenOrSettled(next, events[1..]);
    }
  }

  /** A crash during the handler strands the event: it was never processed, and never will be. */
  lemma CrashStrandsTheEvent()
    ensures var w := Run(START, [Deliver(0), Act(0, true, true), Crash(0)]);
            Sound(w) && !Open(w) && !Settled(w) && w.completions == 0
  {
    var e1, e2, e3 := Deliver(0), Act(0, true, true), Crash(0);
    assert [e1, e2, e3] == [e1] + ([e2] + ([e3] + []));
    RunCons(START, e1, [e2] + ([e3] + []));
    RunCons(Apply(START, e1), e2, [e3] + []);
    RunCons(Apply(Apply(START, e1), e2), e3, []);
    RunKeeps(START, [e1, e2, e3]);
  }
}

/** `consume` itself, over the rows of every consumer and event. */
module InboxService {
  import opened InboxProtocol

  type Key = (string, string)

  datatype Result = IsDuplicate | Completed | Rethrown

  function RowAt(inbox: map<Key, Row>, key: Key): Row {
    if key in inbox then inbox[key] else Absent
  }

  function FailuresAt(failures: map<Key, seq<Failure>>, key: Key): seq<Failure> {
    if key in failures then failures[key] else []
  }

  class Inbox {
    var inbox: map<Key, Row>
    var failures: map<Key, seq<Failure>>

    constructor ()
      ensures inbox == map[] && failures == map[]
    {
      inbox, failures := map[], map[];
    }

    /** One uninterrupted `consume`: what it leaves in the rows of its key is what the concurrent protocol
        leaves when nothing interferes, and no other key is touched. */
    method Consume(consumerName: string, eventId: string, handlerSucceeds: bool) returns (result: Result)
      modifies this
      ensures var key := (consumerName, eventId);
              var before := World(RowAt(old(inbox), key), FailuresAt(old(failures), key), map[], 0, 0);
              var after := Run(before, Uninterrupted(handlerSucceeds));
              && RowAt(inbox, key) == after.row
              && FailuresAt(failures, key) == after.failures
              && after.calls == map[0 := match result
                                         case IsDuplicate => Duplicate
                                         case Completed => Succeeded
                                         case Rethrown => Threw]
      ensures forall key :: key != (consumerName, eventId) ==>
                RowAt(inbox, key) == RowAt(old(inbox), key)
                && FailuresAt(failures, key) == FailuresAt(old(failures), key)
    {
      var key := (consumerName, eventId);
      UninterruptedRun(RowAt(inbox, key), FailuresAt(failures, key), handlerSucceeds);
      hide Run;
      if RowAt(inbox, key) != Absent {
        return IsDuplicate;
      }
      inbox := inbox[key := Processing];
      if handlerSucceeds {
        inbox := inbox[key := Processed];
        return Completed;
      }
      var attempt := |FailuresAt(failures, key)| + 1;
      var quarantined := attempt >= MAX_FAILURES;
      inbox := inbox[key := Failed];
      failures := failures[key := FailuresAt(failures, key) + [Failure(attempt, quarantined)]];
      if !quarantined {
        inbox := inbox - {key};
      }
      return Rethrown;
    }
  }

  function Uninterrupted(handlerSucceeds: bool): seq<Event> {
    var act := Act(0, handlerSucceeds, true);
    [Deliver(0), act, act, act, act, act, act]
  }

  lemma UninterruptedRun(row: Row, failures: seq<Failure>, handlerSucceeds: bool)
    ensures var after := Run(World(row, failures, map[], 0, 0), Uninterrupted(handlerSucceeds));
            if row != Absent then
              after.row == row && after.failures == failures && after.calls == map[0 := Duplicate]
            else if handlerSucceeds then
              after.row == Processed && after.failures == failures && after.calls == map[0 := Succeeded]
            else
              var attempt := |failures| + 1;
              && after.row == (if attempt >= MAX_FAILURES then Failed else Absent)
              && after.failures == failures + [Failure(attempt, attempt >= MAX_FAILURES)]
              && after.calls == map[0 := Threw]
  {
    var w0 := World(row, failures, map[], 0, 0);
    var act := Act(0, handlerSucceeds, true);
    var w2 := Apply(Apply(w0, Deliver(0)), act);
    SevenSteps(w0, Deliver(0), act);
    hide Run;
    if row == Absent && !handlerSucceeds {
      FailingRun(w0);
    } else if row == Absent {
      var w3 := Apply(w2, act);
      assert w3.calls[0] == MarkingProcessed;
      assert Apply(w3, act).calls[0] == Succeeded;
    } else {
      assert w2.calls[0] == Duplicate;
    }
  }

  lemma FailingRun(w0: World)
    requires w0.row == Absent && w0.calls == map[]
    ensures var act := Act(0, false, true);
            var w := Apply(Apply(Apply(Apply(Apply(Apply(Apply(w0, Deliver(0)), act), act), act), act), act), act);
            var attempt := |w0.failures| + 1;
            && w.row == (if attempt >= MAX_FAILURES then Failed else Absent)
            && w.failures == w0.failures + [Failure(attempt, attempt >= MAX_FAILURES)]
            && w.calls == map[0 := Threw]
  {
    var act := Act(0, false, true);
    var attempt := |w0.failures| + 1;
    var w3 := Apply(Apply(Apply(w0, Deliver(0)), act), act);
    assert w3.calls == map[0 := CountingFailures] && w3.row == Processing && w3.failures == w0.failures;
    var w5 := Apply(Apply(w3, act), act);
    assert w5.calls == map[0 := Recording(attempt, true, false)] && w5.row == Failed;
  }

  lemma SevenSteps(w: World, first: Event, act: Event)
    ensures Run(w, [first, act, act, act, act, act, act])
            == Apply(Apply(Apply(Apply(Apply(Apply(Apply(w, first), act), act), act), act), act), act)
  {
    hide Apply;
    var w1 := Apply(w, first);
    var w3 := Apply(Apply(w1, act), act);
    var w5 := Apply(Apply(w3, act), act);
    RunCons(w, first, [act, act, act, act, act, act]);
    RunCons(w1, act, [act, act, act, act, act]);
    RunCons(Apply(w1, act), act, [act, act, act, act]);
    RunCons(w3, act, [act, act, act]);
    RunCons(Apply(w3, act), act, [act, act]);
    RunCons(w5, act, [act]);
    RunCons(Apply(w5, act), act, []);
    assert [first] + [act, act, act, act, act, act] == [first, act, act, act, act, act, act];
    assert [act] + [act, act, act, act, act] == [act, act, act, act, act, act];
    assert [act] + [act, act, act, act] == [act, act, act, act, act];
    assert [act] + [act, act, act] == [act, act, act, act];
    assert [act] + [act, act] == [act, act, act];
    assert [act] + [act] == [act, act];
    assert [act] + [] == [act];
  }
}
