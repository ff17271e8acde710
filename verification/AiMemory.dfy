/** AI memory: which of two contradicting memories of a fact stays active. */
module AiMemory {

  /** What memories are compared by. */
  datatype Merit = Merit(verified: bool, occurredAt: int, confidence: real)

  // ---- the comparison ------------------------------------------------------------------------------------------

  /** First verified, then more recent, then more confident. */
  predicate AtLeast(a: Merit, b: Merit) {
    if a.verified != b.verified then a.verified
    else if a.occurredAt != b.occurredAt then a.occurredAt > b.occurredAt
    else a.confidence >= b.confidence
  }

  /** The sort's comparison: what differs first decides; the greater goes in front. */
  predicate GoesFirst(a: Merit, b: Merit) {
    var byVerified := (if b.verified then 1 else 0) - (if a.verified then 1 else 0);
    var byTime := b.occurredAt - a.occurredAt;
    if byVerified != 0 then byVerified < 0 else if byTime != 0 then byTime < 0 else b.confidence - a.confidence <= 0.0
  }

  function Insert(m: Merit, sorted: seq<Merit>): seq<Merit> {
    if sorted == [] || GoesFirst(m, sorted[0]) then [m] + sorted else [sorted[0]] + Insert(m, sorted[1..])
  }

  function Sort(merits: seq<Merit>): (r: seq<Merit>)
    ensures |r| == |merits|
  {
    if merits == [] then []
    else
      InsertLength(merits[0], Sort(merits[1..]));
      Insert(merits[0], Sort(merits[1..]))
  }

  lemma {:induction false} InsertLength(m: Merit, sorted: seq<Merit>)
    ensures |Insert(m, sorted)| == |sorted| + 1
  {
    if sorted != [] && !GoesFirst(m, sorted[0]) { InsertLength(m, sorted[1..]); }
  }

  /** Whether a candidate takes the place of the existing memories, judged against the best of them. */
  predicate ShouldSupersede(candidate: Merit, existing: seq<Merit>) {
    if existing == [] then true
    else
      var best := Sort(existing)[0];
      if candidate.verified != best.verified then candidate.verified
      else if candidate.occurredAt != best.occurredAt then candidate.occurredAt > best.occurredAt
      else candidate.confidence >= best.confidence
  }

  /** The first of the sorted memories is one of them and no less than any. */
  lemma {:induction false} BestIsFirst(merits: seq<Merit>)
    requires merits != []
    ensures Sort(merits)[0] in merits && forall m <- merits :: AtLeast(Sort(merits)[0], m)
  {
    var rest := Sort(merits[1..]);
    if rest == [] {
      assert merits == [merits[0]];
    } else {
      BestIsFirst(merits[1..]);
      assert Sort(merits)[0] == if GoesFirst(merits[0], rest[0]) then merits[0] else rest[0];
      hide Sort;
      assert merits == [merits[0]] + merits[1..];
      forall m <- merits[1..] ensures GoesFirst(merits[0], rest[0]) ==> AtLeast(merits[0], m) {
        assert AtLeast(rest[0], m);
      }
    }
  }

  /** A candidate supersedes exactly when it is no less than any of the existing memories. */
  lemma SupersedesIffAtLeastAll(candidate: Merit, existing: seq<Merit>)
    ensures ShouldSupersede(candidate, existing) <==> forall m <- existing :: AtLeast(candidate, m)
  {
    if existing != [] {
      BestIsFirst(existing);
      hide Sort;
      var best := Sort(existing)[0];
      if AtLeast(candidate, best) {
        forall m <- existing ensures AtLeast(candidate, m) {
          assert AtLeast(best, m);
        }
      }
    }
  }

  // ---- the records ---------------------------------------------------------------------------------------------

  /** Workspace, subject, memory type and fact key. */
  datatype Fact = Fact(workspaceId: string, subjectType: string, subjectId: string, memoryType: string, factKey: string)

  datatype Status = Active | Contradicted | Superseded

  /** A record's id is its place in the collection. */
  datatype Record = Record(
    fact: Fact, contentHash: string, merit: Merit, expiry: int, status: Status, contradicts: set<nat>)

  datatype Input = Input(fact: Fact, contentHash: string, merit: Merit, expiry: int)

  predicate Live(r: Record, fact: Fact, now: int) {
    r.fact == fact && r.status.Active? && r.expiry > now
  }

  /** The ids of a fact's active, unexpired records, in order. */
  function Existing(records: seq<Record>, fact: Fact, now: int): (r: seq<nat>)
    ensures forall id: nat :: id in r <==> id < |records| && Live(records[id], fact, now)
  {
    if |records| == 0 then []
    else
      var before := Existing(records[..|records| - 1], fact, now);
      if Live(records[|records| - 1], fact, now) then before + [|records| - 1] else before
  }

  function Merits(records: seq<Record>, ids: seq<nat>): seq<Merit>
    requires forall id <- ids :: id < |records|
  {
    seq(|ids|, i requires 0 <= i < |ids| => assert ids[i] in ids; records[ids[i]].merit)
  }

  function Max(a: real, b: real): real { if a > b then a else b }

  function Raised(records: seq<Record>, id: nat, confidence: real): seq<Record>
    requires id < |records|
  {
    var merit := records[id].merit;
    records[id := records[id].(merit := merit.(confidence := Max(merit.confidence, confidence)))]
  }

  /** The records contradicted are linked to the new one and, if it won, superseded. */
  function Linked(records: seq<Record>, ids: seq<nat>, id: nat, wins: bool): (r: seq<Record>)
    ensures |r| == |records|
  {
    seq(|records|, i requires 0 <= i < |records| =>
      if i in ids then
        records[i].(status := if wins then Superseded else records[i].status, contradicts := records[i].contradicts + {id})
      else records[i])
  }

  function Added(records: seq<Record>, input: Input, existing: seq<nat>): seq<Record>
    requires forall id <- existing :: id < |records|
  {
    var wins := ShouldSupersede(input.merit, Merits(records, existing));
    var record := Record(input.fact, input.contentHash, input.merit, input.expiry, if wins then Active else Contradicted,
                         set id <- existing);
    Linked(records, existing, |records|, wins) + [record]
  }

  /** The first of the existing records with this content. */
  function FindSame(records: seq<Record>, ids: seq<nat>, contentHash: string): (r: int)
    requires forall id <- ids :: id < |records|
    ensures r >= 0 ==> r in ids && records[r].contentHash == contentHash
    ensures r < 0 ==> forall id <- ids :: records[id].contentHash != contentHash
  {
    if ids == [] then -1
    else
      assert ids[0] in ids && forall id <- ids[1..] :: id in ids;
      if records[ids[0]].contentHash == contentHash then ids[0]
      else FindSame(records, ids[1..], contentHash)
  }

  function Remembered(records: seq<Record>, input: Input, now: int): seq<Record> {
    var existing := Existing(records, input.fact, now);
    var same := FindSame(records, existing, input.contentHash);
    if same >= 0 then Raised(records, same, input.merit.confidence) else Added(records, input, existing)
  }

  class AiMemoryRepository {
    var records: seq<Record>

    constructor ()
      ensures records == []
    {
      records := [];
    }

    /** Remembers a fact; yields the record kept for it and those it contradicts. */
    method Remember(input: Input, now: int) returns (id: nat, contradictions: seq<nat>)
      modifies this
      ensures records == Remembered(old(records), input, now)
      ensures id < |records| && records[id].fact == input.fact && records[id].contentHash == input.contentHash
      ensures |records| == |old(records)| ==> id in Existing(old(records), input.fact, now)
      ensures |records| > |old(records)| ==> id == |old(records)|
      ensures contradictions == if |records| == |old(records)| then [] else Existing(old(records), input.fact, now)
    {
      var existing := Existing(records, input.fact, now);
      var same := FindSame(records, existing, input.contentHash);
      if same >= 0 {
        var merit := records[same].merit;
        var confidence := Max(merit.confidence, input.merit.confidence);
        records := records[same := records[same].(merit := merit.(confidence := confidence))];
        return same, [];
      }
      var wins := ShouldSupersede(input.merit, Merits(records, existing));
      id := |records|;
      var record := Record(input.fact, input.contentHash, input.merit, input.expiry, if wins then Active else Contradicted,
                           set i <- existing);
      records := Linked(records, existing, id, wins) + [record];
      contradictions := existing;
    }
  }

  // ---- what every history keeps ----------------------------------------------------------------------------------

  predicate OneActive(records: seq<Record>, now: int) {
    forall i, j :: 0 <= i < j < |records| && records[i].fact == records[j].fact ==>
      !(Live(records[i], records[i].fact, now) && Live(records[j], records[j].fact, now))
  }

  predicate NothingExpired(records: seq<Record>, fact: Fact, now: int) {
    forall i :: 0 <= i < |records| && records[i].fact == fact ==> records[i].expiry > now
  }

  /** Of a fact with nothing expired, an active record is no less than any record. */
  predicate Dominant(records: seq<Record>, fact: Fact, now: int) {
    NothingExpired(records, fact, now) ==>
      forall i | 0 <= i < |records| && records[i].fact == fact && records[i].status.Active? ::
        forall j | 0 <= j < |records| && records[j].fact == fact :: AtLeast(records[i].merit, records[j].merit)
  }

  /** Of a fact with records and nothing expired, some record is active. */
  predicate SomeActive(records: seq<Record>, fact: Fact, now: int) {
    NothingExpired(records, fact, now) && (exists i :: 0 <= i < |records| && records[i].fact == fact) ==>
      exists i :: 0 <= i < |records| && records[i].fact == fact && records[i].status.Active?
  }

  predicate Returned(records: seq<Record>, i: nat, j: nat)
    requires i < |records|
  {
    j < |records| && i in records[j].contradicts && records[i].fact == records[j].fact
  }

  /** Contradictions are mutual and within a fact. */
  predicate Mutual(records: seq<Record>) {
    forall i :: 0 <= i < |records| ==> forall j <- records[i].contradicts :: Returned(records, i, j)
  }

  ghost predicate Kept(records: seq<Record>, now: int) {
    && OneActive(records, now) && Mutual(records)
    && forall fact :: Dominant(records, fact, now) && SomeActive(records, fact, now)
  }

  /** Raising a confidence changes nothing else. */
  lemma RaisedAt(records: seq<Record>, id: nat, confidence: real)
    requires id < |records|
    ensures var after := Raised(records, id, confidence);
            && |after| == |records|
            && (forall i :: 0 <= i < |records| ==>
                  && after[i].fact == records[i].fact && after[i].status == records[i].status
                  && after[i].expiry == records[i].expiry && after[i].contradicts == records[i].contradicts)
            && (forall i :: 0 <= i < |records| && i != id ==> after[i] == records[i])
            && after[id].merit.verified == records[id].merit.verified
            && after[id].merit.occurredAt == records[id].merit.occurredAt
            && after[id].merit.confidence >= records[id].merit.confidence
  {}

  lemma RaisedKeepsDominant(records: seq<Record>, id: nat, confidence: real, now: int, fact: Fact)
    requires id < |records| && Live(records[id], records[id].fact, now)
    requires OneActive(records, now) && Dominant(records, fact, now) && SomeActive(records, fact, now)
    ensures var after := Raised(records, id, confidence);
            Dominant(after, fact, now) && SomeActive(after, fact, now)
  {
    var after := Raised(records, id, confidence);
    RaisedAt(records, id, confidence);
    hide Raised;
    if NothingExpired(after, fact, now) {
      assert NothingExpired(records, fact, now);
      forall i | 0 <= i < |after| && after[i].fact == fact && after[i].status.Active?
        ensures forall j | 0 <= j < |after| && after[j].fact == fact :: AtLeast(after[i].merit, after[j].merit)
      {
        assert records[i].fact == fact && records[i].status.Active? && Live(records[i], fact, now);
        hide OneActive;
        forall j | 0 <= j < |after| && after[j].fact == fact ensures AtLeast(after[i].merit, after[j].merit) {
          assert AtLeast(records[i].merit, records[j].merit);
          if j == id { OnlyOne(records, i, id, now); }
        }
      }
    }
  }

  lemma OnlyOne(records: seq<Record>, i: nat, j: nat, now: int)
    requires OneActive(records, now) && i < |records| && j < |records| && records[i].fact == records[j].fact
    requires Live(records[i], records[i].fact, now) && Live(records[j], records[j].fact, now)
    ensures i == j
  {}

  lemma RaisedKeeps(records: seq<Record>, id: nat, confidence: real, now: int)
    requires id < |records| && Live(records[id], records[id].fact, now) && Kept(records, now)
    ensures Kept(Raised(records, id, confidence), now)
  {
    forall fact
      ensures Dominant(Raised(records, id, confidence), fact, now) && SomeActive(Raised(records, id, confidence), fact, now)
    {
      assert Dominant(records, fact, now) && SomeActive(records, fact, now);
      RaisedKeepsDominant(records, id, confidence, now, fact);
    }
    RaisedAt(records, id, confidence);
    var after := Raised(records, id, confidence);
    hide Dominant, SomeActive, Raised;
    forall i, j | 0 <= i < |after| && j in after[i].contradicts ensures Returned(after, i, j) {
      assert Returned(records, i, j);
    }
  }

  /** Content that a live record of the fact holds already adds no record: the first such record gets the greater of
      the two confidences, and nothing else changes. */
  lemma RepetitionRaises(records: seq<Record>, input: Input, now: int, id: nat)
    requires id < |records| && Live(records[id], input.fact, now) && records[id].contentHash == input.contentHash
    ensures exists first :: 0 <= first < |records|
              && Live(records[first], input.fact, now) && records[first].contentHash == input.contentHash
              && var merit, raised := records[first].merit, Remembered(records, input, now)[first].merit;
              && Remembered(records, input, now) == records[first := records[first].(merit := raised)]
              && raised == merit.(confidence := raised.confidence)
              && raised.confidence >= merit.confidence && raised.confidence >= input.merit.confidence
              && raised.confidence in [merit.confidence, input.merit.confidence]
  {
    var existing := Existing(records, input.fact, now);
    assert id in existing;
    var first := FindSame(records, existing, input.contentHash);
    hide Existing, FindSame;
    assert first >= 0;
    assert Remembered(records, input, now) == Raised(records, first, input.merit.confidence);
  }

  lemma SupersedesIffAtLeastLive(records: seq<Record>, input: Input, now: int)
    ensures ShouldSupersede(input.merit, Merits(records, Existing(records, input.fact, now))) <==>
            forall j | 0 <= j < |records| && Live(records[j], input.fact, now) :: AtLeast(input.merit, records[j].merit)
  {
    var existing := Existing(records, input.fact, now);
    var merits := Merits(records, existing);
    SupersedesIffAtLeastAll(input.merit, merits);
    hide ShouldSupersede, AtLeast, Live;
    forall j | 0 <= j < |records| && Live(records[j], input.fact, now) ensures records[j].merit in merits {
      assert j in existing;
      var k :| 0 <= k < |existing| && existing[k] == j;
      assert merits[k] == records[j].merit;
    }
    forall m | m in merits
      ensures exists j :: 0 <= j < |records| && Live(records[j], input.fact, now) && records[j].merit == m
    {
      var k :| 0 <= k < |merits| && merits[k] == m;
      assert existing[k] in existing;
    }
  }

  predicate Wins(records: seq<Record>, input: Input, now: int) {
    ShouldSupersede(input.merit, Merits(records, Existing(records, input.fact, now)))
  }

  /** The records after one more, place by place. */
  lemma AddedAt(records: seq<Record>, input: Input, now: int)
    ensures var wins, n := Wins(records, input, now), |records|;
            var after := Added(records, input, Existing(records, input.fact, now));
            && |after| == n + 1
            && (forall i :: 0 <= i < n ==>
                  && after[i].fact == records[i].fact && after[i].merit == records[i].merit
                  && after[i].expiry == records[i].expiry && after[i].contentHash == records[i].contentHash
                  && after[i].status
                     == (if wins && Live(records[i], input.fact, now) then Superseded else records[i].status)
                  && after[i].contradicts
                     == if Live(records[i], input.fact, now) then records[i].contradicts + {n} else records[i].contradicts)
            && after[n].fact == input.fact && after[n].merit == input.merit && after[n].contentHash == input.contentHash
            && after[n].expiry == input.expiry && after[n].status == (if wins then Active else Contradicted)
            && (forall j :: j in after[n].contradicts <==> 0 <= j < n && Live(records[j], input.fact, now))
  {
    var existing := Existing(records, input.fact, now);
    hide ShouldSupersede, Merits, Live, Existing;
    assert forall i :: 0 <= i < |records| ==> (i in existing <==> Live(records[i], input.fact, now));
  }

  lemma AddedKeepsOne(records: seq<Record>, input: Input, now: int)
    requires OneActive(records, now)
    ensures OneActive(Added(records, input, Existing(records, input.fact, now)), now)
  {
    AddedAt(records, input, now);
    hide Added, Existing, Wins;
  }

  lemma AddedReturns(records: seq<Record>, input: Input, now: int, i: nat, j: nat)
    requires i < |records| && j in records[i].contradicts ==> Returned(records, i, j)
    requires var after := Added(records, input, Existing(records, input.fact, now));
             i < |after| && j in after[i].contradicts
    ensures Returned(Added(records, input, Existing(records, input.fact, now)), i, j)
  {
    AddedAt(records, input, now);
    hide Added, Existing, Wins;
    if i < |records| && j !in records[i].contradicts {
      assert j == |records| && Live(records[i], input.fact, now);
    }
  }

  lemma AddedKeepsMutual(records: seq<Record>, input: Input, now: int)
    requires Mutual(records)
    ensures Mutual(Added(records, input, Existing(records, input.fact, now)))
  {
    var after := Added(records, input, Existing(records, input.fact, now));
    hide Added, Existing, Returned;
    forall i, j | 0 <= i < |after| && j in after[i].contradicts ensures Returned(after, i, j) {
      AddedReturns(records, input, now, i, j);
    }
  }

  lemma AtLeastIsTotalOrder(a: Merit, b: Merit, c: Merit)
    ensures AtLeast(a, a) && (AtLeast(a, b) || AtLeast(b, a))
    ensures AtLeast(a, b) && AtLeast(b, c) ==> AtLeast(a, c)
  {}

  lemma AddedKeepsSomeActive(records: seq<Record>, input: Input, now: int, fact: Fact)
    requires SomeActive(records, fact, now)
    ensures SomeActive(Added(records, input, Existing(records, input.fact, now)), fact, now)
  {
    var existing := Existing(records, input.fact, now);
    var after := Added(records, input, existing);
    var wins := Wins(records, input, now);
    AddedAt(records, input, now);
    SupersedesIffAtLeastLive(records, input, now);
    hide Added, Existing, AtLeast;
    assert !wins ==> exists j :: 0 <= j < |records| && Live(records[j], input.fact, now);
    hide Wins;
    if NothingExpired(after, fact, now) {
      StillNothingExpired(records, input, now, fact);
      if wins && fact == input.fact {
        assert after[|records|].status.Active?;
      } else if fact == input.fact {
        var j :| 0 <= j < |records| && Live(records[j], input.fact, now);
        assert after[j].status.Active?;
      } else if i :| 0 <= i < |after| && after[i].fact == fact {
        assert records[i].fact == fact;
        var j :| 0 <= j < |records| && records[j].fact == fact && records[j].status.Active?;
        assert after[j].status.Active?;
      }
    }
  }

  lemma StillNothingExpired(records: seq<Record>, input: Input, now: int, fact: Fact)
    requires NothingExpired(Added(records, input, Existing(records, input.fact, now)), fact, now)
    ensures NothingExpired(records, fact, now)
  {
    AddedAt(records, input, now);
    hide Added, Existing, Wins;
    var after := Added(records, input, Existing(records, input.fact, now));
    forall i | 0 <= i < |records| && records[i].fact == fact ensures records[i].expiry > now {
      assert after[i].fact == fact;
    }
  }

  lemma AddedKeepsDominant(records: seq<Record>, input: Input, now: int, fact: Fact)
    requires OneActive(records, now) && Dominant(records, fact, now) && SomeActive(records, fact, now)
    ensures Dominant(Added(records, input, Existing(records, input.fact, now)), fact, now)
  {
    var existing := Existing(records, input.fact, now);
    var after := Added(records, input, existing);
    AddedAt(records, input, now);
    if NothingExpired(after, fact, now) {
      StillNothingExpired(records, input, now, fact);
      forall i | 0 <= i < |after| && after[i].fact == fact && after[i].status.Active?
        ensures forall j | 0 <= j < |after| && after[j].fact == fact :: AtLeast(after[i].merit, after[j].merit)
      {
        forall j | 0 <= j < |after| && after[j].fact == fact ensures AtLeast(after[i].merit, after[j].merit) {
          AddedPair(records, input, now, i, j);
        }
      }
    }
  }

  /** An active record among those left by an addition is no less than any other of its fact. */
  lemma AddedPair(records: seq<Record>, input: Input, now: int, i: nat, j: nat)
    requires var after := Added(records, input, Existing(records, input.fact, now));
             && i < |after| && j < |after| && after[i].fact == after[j].fact && after[i].status.Active?
             && OneActive(records, now) && NothingExpired(records, after[i].fact, now)
             && Dominant(records, after[i].fact, now) && SomeActive(records, after[i].fact, now)
    ensures var after := Added(records, input, Existing(records, input.fact, now));
            AtLeast(after[i].merit, after[j].merit)
  {
    var n := |records|;
    AddedAt(records, input, now);
    SupersedesIffAtLeastLive(records, input, now);
    var after := Added(records, input, Existing(records, input.fact, now));
    hide Added, Existing, Merits, ShouldSupersede;
    AtLeastIsTotalOrder(input.merit, input.merit, input.merit);
    if i < n && j < n {
      assert records[i].fact == records[j].fact && records[i].status.Active?;
    } else if i == n && j < n {
      assert records[j].fact == input.fact;
      var a :| 0 <= a < n && records[a].fact == input.fact && records[a].status.Active?;
      assert Live(records[a], input.fact, now);
      assert AtLeast(records[a].merit, records[j].merit);
      AtLeastIsTotalOrder(input.merit, records[a].merit, records[j].merit);
    } else if i < n && j == n {
      var x :| 0 <= x < n && Live(records[x], input.fact, now) && !AtLeast(input.merit, records[x].merit);
      assert Live(records[i], input.fact, now);
      OnlyOne(records, i, x, now);
      AtLeastIsTotalOrder(records[x].merit, input.merit, input.merit);
    }
  }

  lemma RememberKeeps(records: seq<Record>, input: Input, now: int)
    requires Kept(records, now)
    ensures Kept(Remembered(records, input, now), now)
  {
    var existing := Existing(records, input.fact, now);
    var same := FindSame(records, existing, input.contentHash);
    if same >= 0 {
      RaisedKeeps(records, same, input.merit.confidence, now);
    } else {
      AddedKeepsOne(records, input, now);
      AddedKeepsMutual(records, input, now);
      forall fact
        ensures Dominant(Added(records, input, existing), fact, now)
        ensures SomeActive(Added(records, input, existing), fact, now)
      {
        assert Dominant(records, fact, now) && SomeActive(records, fact, now);
        AddedKeepsDominant(records, input, now, fact);
        AddedKeepsSomeActive(records, input, now, fact);
      }
    }
    hide OneActive, Mutual, Dominant, SomeActive, Raised, Added;
  }

  /** Time passing only takes records out of consideration. */
  lemma TimePasses(records: seq<Record>, now: int, later: int)
    requires Kept(records, now) && now <= later
    ensures Kept(records, later)
  {
    forall fact ensures Dominant(records, fact, later) && SomeActive(records, fact, later) {
      assert Dominant(records, fact, now) && SomeActive(records, fact, now);
      assert NothingExpired(records, fact, later) ==> NothingExpired(records, fact, now);
    }
  }

  // ---- histories --------------------------------------------------------------------------------------------------

  datatype Call = Call(input: Input, now: int)

  function Run(records: seq<Record>, calls: seq<Call>): seq<Record>
    decreases |calls|
  {
    if |calls| == 0 then records else Run(Remembered(records, calls[0].input, calls[0].now), calls[1..])
  }

  predicate Ordered(calls: seq<Call>, start: int, end: int)
    decreases |calls|
  {
    if |calls| == 0 then start <= end else start <= calls[0].now && Ordered(calls[1..], calls[0].now, end)
  }

  lemma {:induction false} RunKeeps(records: seq<Record>, calls: seq<Call>, start: int, end: int)
    requires Kept(records, start) && Ordered(calls, start, end)
    ensures Kept(Run(records, calls), end)
    decreases |calls|
  {
    hide Kept;
    if |calls| == 0 {
      TimePasses(records, start, end);
    } else {
      TimePasses(records, start, calls[0].now);
      RememberKeeps(records, calls[0].input, calls[0].now);
      RunKeeps(Remembered(records, calls[0].input, calls[0].now), calls[1..], calls[0].now, end);
    }
  }

  /** After any calls on a clock that never goes back, at any later time: a fact has at most one record that is
      active and unexpired. While nothing of the fact has expired it has exactly one, once it has any, and that
      one is no less than any record stored for the fact. Contradictions are always mutual. */
  lemma OneActivePerFact(calls: seq<Call>, start: int, end: int, fact: Fact)
    requires Ordered(calls, start, end)
    ensures var records := Run([], calls);
            && |Existing(records, fact, end)| <= 1
            && Mutual(records)
            && (NothingExpired(records, fact, end) ==>
                  && ((exists i :: 0 <= i < |records| && records[i].fact == fact) <==> |Existing(records, fact, end)| == 1)
                  && forall a <- Existing(records, fact, end) ::
                       forall j | 0 <= j < |records| && records[j].fact == fact ::
                         AtLeast(records[a].merit, records[j].merit))
  {
    assert Kept([], start);
    RunKeeps([], calls, start, end);
    var records := Run([], calls);
    assert Dominant(records, fact, end) && SomeActive(records, fact, end);
    hide Run;
    AtMostOneExisting(records, fact, end);
    if NothingExpired(records, fact, end) { ActiveExists(records, fact, end); }
    hide Kept, Existing, AtLeast, OneActive, SomeActive;
  }

  lemma ActiveExists(records: seq<Record>, fact: Fact, now: int)
    requires OneActive(records, now) && SomeActive(records, fact, now) && NothingExpired(records, fact, now)
    ensures (exists i :: 0 <= i < |records| && records[i].fact == fact) <==> |Existing(records, fact, now)| == 1
  {
    AtMostOneExisting(records, fact, now);
    var ids := Existing(records, fact, now);
    if exists i :: 0 <= i < |records| && records[i].fact == fact {
      var a :| 0 <= a < |records| && records[a].fact == fact && records[a].status.Active?;
      assert Live(records[a], fact, now);
      assert a in ids;
    }
    if |ids| == 1 { assert ids[0] in ids; }
  }

  lemma AtMostOneExisting(records: seq<Record>, fact: Fact, now: int)
    requires OneActive(records, now)
    ensures |Existing(records, fact, now)| <= 1
  {
    ExistingIncreases(records, fact, now);
    var ids := Existing(records, fact, now);
    hide Existing, OneActive;
    if |ids| > 1 {
      assert ids[0] in ids && ids[1] in ids;
      OnlyOne(records, ids[0], ids[1], now);
    }
  }

  predicate Ascending(ids: seq<nat>) {
    forall i, j :: 0 <= i < j < |ids| ==> ids[i] < ids[j]
  }

  lemma {:induction false} ExistingIncreases(records: seq<Record>, fact: Fact, now: int)
    ensures Ascending(Existing(records, fact, now))
    decreases |records|
  {
    if |records| > 0 {
      var front := records[..|records| - 1];
      ExistingIncreases(front, fact, now);
      var before := Existing(front, fact, now);
      forall i | 0 <= i < |before| ensures before[i] < |front| { assert before[i] in before; }
    }
  }

  /** Once the active record expires a weaker one can become active beside a stronger one still stored. */
  lemma ExpiryLetsWeakerIn(fact: Fact)
    ensures var a, b, c := Input(fact, "a", Merit(true, 0, 0.9), 10), Input(fact, "b", Merit(true, 0, 0.5), 100),
                           Input(fact, "c", Merit(true, 0, 0.1), 100);
            var records := Remembered(Remembered(Remembered([], a, 0), b, 1), c, 20);
            && |records| == 3 && Live(records[2], fact, 20) && records[1].fact == fact && records[1].expiry > 20
            && !AtLeast(records[2].merit, records[1].merit)
  {
    var a, b, c := Input(fact, "a", Merit(true, 0, 0.9), 10), Input(fact, "b", Merit(true, 0, 0.5), 100),
                   Input(fact, "c", Merit(true, 0, 0.1), 100);
    hide Remembered;
    var first := Remembered([], a, 0);
    NewContent([], a, 0);
    assert |first| == 1 && first[0].status == Active && first[0].merit == a.merit && first[0].expiry == 10;
    assert first == [first[0]];
    var second := Remembered(first, b, 1);
    NewContent(first, b, 1);
    assert Live(first[0], fact, 1) && !AtLeast(b.merit, first[0].merit);
    assert |second| == 2 && second[1].status == Contradicted && second[1].merit == b.merit && second[1].expiry == 100;
    assert second == [second[0], second[1]];
    NewContent(second, c, 20);
    assert !Live(second[0], fact, 20) && !Live(second[1], fact, 20);
  }

  /** Remembering content no live record has adds a record, active if no live one is ahead of it. */
  lemma NewContent(records: seq<Record>, input: Input, now: int)
    requires forall r <- records :: r.contentHash != input.contentHash
    ensures var after := Remembered(records, input, now);
            var wins := forall j | 0 <= j < |records| && Live(records[j], input.fact, now) ::
                          AtLeast(input.merit, records[j].merit);
            && |after| == |records| + 1
            && after[|records|].fact == input.fact && after[|records|].merit == input.merit
            && after[|records|].contentHash == input.contentHash && after[|records|].expiry == input.expiry
            && after[|records|].status == (if wins then Active else Contradicted)
            && forall i :: 0 <= i < |records| ==>
                 && after[i].fact == records[i].fact && after[i].merit == records[i].merit
                 && after[i].expiry == records[i].expiry && after[i].contentHash == records[i].contentHash
                 && after[i].status == if wins && Live(records[i], input.fact, now) then Superseded else records[i].status
  {
    var existing := Existing(records, input.fact, now);
    var same := FindSame(records, existing, input.contentHash);
    assert same < 0;
    AddedAt(records, input, now);
    SupersedesIffAtLeastLive(records, input, now);
    hide Added, Existing, FindSame;
  }
}
