/** When two trees print the same, and what that makes of idempotency keys. */
module StableValueTheorems {
  import opened StableValue
  import opened StableValueReading

  // ---- equality up to key order ---------------------------------------------------------------------------------

  predicate DistinctNames(members: seq<Member>) {
    forall i, j :: 0 <= i < j < |members| ==> members[i].name != members[j].name
  }

  /** No object has two members of one name. */
  predicate WellFormed(v: Json) {
    match v
    case Array(items) => forall i :: 0 <= i < |items| ==> WellFormed(items[i])
    case Object(members) =>
      DistinctNames(members) && forall i :: 0 <= i < |members| ==> WellFormed(members[i].value)
    case _ => true
  }

  function NameSet(members: seq<Member>): set<string> {
    set i | 0 <= i < |members| :: members[i].name
  }

  function Lookup(members: seq<Member>, name: string): Json {
    if members == [] then Null else if members[0].name == name then members[0].value else Lookup(members[1..], name)
  }

  /** Equal up to the order of the members of objects. */
  predicate Same(a: Json, b: Json)
    decreases a
  {
    match a
    case Array(items) =>
      b.Array? && |b.items| == |items| && forall i :: 0 <= i < |items| ==> Same(items[i], b.items[i])
    case Object(members) =>
      && b.Object? && NameSet(b.members) == NameSet(members)
      && forall i :: 0 <= i < |members| ==> Same(members[i].value, Lookup(b.members, members[i].name))
    case _ => a == b
  }

  predicate DistinctRanks(members: seq<Member>, rank: Collation) {
    forall i, j :: 0 <= i < j < |members| ==> rank(members[i].name) != rank(members[j].name)
  }

  /** No object has two keys the collation does not tell apart. */
  predicate NoTies(v: Json, rank: Collation) {
    match v
    case Array(items) => forall i :: 0 <= i < |items| ==> NoTies(items[i], rank)
    case Object(members) =>
      && DistinctRanks(members, rank)
      && forall i :: 0 <= i < |members| ==> NoTies(members[i].value, rank)
    case _ => true
  }

  // ---- sorting ----------------------------------------------------------------------------------------------------

  lemma {:induction false} InsertKeeps(m: Member, sorted: seq<Member>, rank: Collation)
    ensures multiset(Insert(m, sorted, rank)) == multiset(sorted) + multiset{m}
    ensures |Insert(m, sorted, rank)| == |sorted| + 1
  {
    if sorted == [] || rank(m.name) <= rank(sorted[0].name) {
    } else {
      InsertKeeps(m, sorted[1..], rank);
      assert sorted == [sorted[0]] + sorted[1..];
    }
  }

  lemma {:induction false} SortKeeps(members: seq<Member>, rank: Collation)
    ensures multiset(Sort(members, rank)) == multiset(members)
    ensures |Sort(members, rank)| == |members|
  {
    if members != [] {
      SortKeeps(members[1..], rank);
      InsertKeeps(members[0], Sort(members[1..], rank), rank);
      assert members == [members[0]] + members[1..];
    }
  }

  predicate Increasing(members: seq<Member>, rank: Collation) {
    forall i, j :: 0 <= i < j < |members| ==> rank(members[i].name) < rank(members[j].name)
  }

  lemma IncreasingCons(m: Member, rest: seq<Member>, rank: Collation)
    requires Increasing(rest, rank) && forall s <- rest :: rank(m.name) < rank(s.name)
    ensures Increasing([m] + rest, rank)
  {
    assert forall i :: 0 <= i < |rest| ==> rest[i] in rest;
  }

  lemma {:induction false} InsertIncreases(m: Member, sorted: seq<Member>, rank: Collation)
    requires Increasing(sorted, rank) && forall s <- sorted :: rank(s.name) != rank(m.name)
    ensures Increasing(Insert(m, sorted, rank), rank)
  {
    if sorted == [] || rank(m.name) <= rank(sorted[0].name) {
      IncreasingCons(m, sorted, rank);
    } else {
      InsertIncreases(m, sorted[1..], rank);
      InsertKeeps(m, sorted[1..], rank);
      var rest := Insert(m, sorted[1..], rank);
      forall s <- rest ensures rank(sorted[0].name) < rank(s.name) {
        assert s in multiset(rest);
      }
      hide Increasing;
      IncreasingCons(sorted[0], rest, rank);
    }
  }

  lemma {:induction false} SortIncreases(members: seq<Member>, rank: Collation)
    requires DistinctRanks(members, rank)
    ensures Increasing(Sort(members, rank), rank)
  {
    if members != [] {
      SortIncreases(members[1..], rank);
      SortKeeps(members[1..], rank);
      var rest := Sort(members[1..], rank);
      forall s <- rest ensures rank(s.name) != rank(members[0].name) {
        assert s in multiset(rest);
      }
      InsertIncreases(members[0], rest, rank);
    }
  }

  lemma EmptyAlike(a: seq<Member>, b: seq<Member>)
    requires forall m :: m in a <==> m in b
    ensures a == [] <==> b == []
  {
    if a != [] { assert a[0] in b; }
    if b != [] { assert b[0] in a; }
  }

  /** Two increasing lists of the same members are the same list. */
  lemma {:induction false} IncreasingIsUnique(a: seq<Member>, b: seq<Member>, rank: Collation)
    requires Increasing(a, rank) && Increasing(b, rank) && forall m :: m in a <==> m in b
    ensures a == b
  {
    EmptyAlike(a, b);
    if a != [] {
      SameTails(a, b, rank);
      IncreasingIsUnique(a[1..], b[1..], rank);
      Cons(a, b);
    }
  }

  lemma SameTails(a: seq<Member>, b: seq<Member>, rank: Collation)
    requires Increasing(a, rank) && Increasing(b, rank) && (forall m :: m in a <==> m in b) && a != [] && b != []
    ensures a[0] == b[0] && forall m :: m in a[1..] <==> m in b[1..]
  {
    assert a[0] in b && b[0] in a;
    var i :| 0 <= i < |b| && b[i] == a[0];
    var j :| 0 <= j < |a| && a[j] == b[0];
    assert i == 0;
    forall m ensures m in a[1..] <==> m in a && m != a[0] {}
    forall m ensures m in b[1..] <==> m in b && m != b[0] {}
  }

  /** The first member of a rank. */
  function Lead(members: seq<Member>, r: real, rank: Collation): seq<Member> {
    if members == [] then [] else if rank(members[0].name) == r then [members[0]] else Lead(members[1..], r, rank)
  }

  lemma {:induction false} InsertLead(m: Member, sorted: seq<Member>, r: real, rank: Collation)
    ensures Lead(Insert(m, sorted, rank), r, rank) == if rank(m.name) == r then [m] else Lead(sorted, r, rank)
  {
    if sorted == [] || rank(m.name) <= rank(sorted[0].name) {
      assert ([m] + sorted)[1..] == sorted;
    } else {
      InsertLead(m, sorted[1..], r, rank);
      var rest := Insert(m, sorted[1..], rank);
      assert ([sorted[0]] + rest)[1..] == rest;
    }
  }

  /** Sorting keeps the order of the members of one rank. */
  lemma {:induction false} SortLead(members: seq<Member>, r: real, rank: Collation)
    ensures Lead(Sort(members, rank), r, rank) == Lead(members, r, rank)
  {
    if members != [] {
      SortLead(members[1..], r, rank);
      InsertLead(members[0], Sort(members[1..], rank), r, rank);
    }
  }

  // ---- canonical trees --------------------------------------------------------------------------------------------

  lemma {:induction false} CanonItemsAt(items: seq<Json>, i: nat, rank: Collation)
    requires i < |items|
    ensures CanonItems(items, rank)[i] == Canon(items[i], rank)
  {
    if i > 0 { CanonItemsAt(items[1..], i - 1, rank); }
  }

  lemma {:induction false} CanonMembersAt(members: seq<Member>, i: nat, rank: Collation)
    requires i < |members|
    ensures CanonMembers(members, rank)[i] == Member(members[i].name, Canon(members[i].value, rank))
  {
    if i > 0 { CanonMembersAt(members[1..], i - 1, rank); }
  }

  lemma SortedAlike(a: seq<Member>, b: seq<Member>, rank: Collation)
    requires Sort(a, rank) == Sort(b, rank)
    ensures forall m :: m in a <==> m in b
  {
    SortKeeps(a, rank);
    SortKeeps(b, rank);
    forall m ensures m in a <==> m in b {
      assert m in multiset(a) <==> m in multiset(b);
    }
  }

  lemma {:induction false} LookupAt(members: seq<Member>, i: nat)
    requires DistinctNames(members) && i < |members|
    ensures Lookup(members, members[i].name) == members[i].value
  {
    if i > 0 { LookupAt(members[1..], i - 1); }
  }

  lemma Find(members: seq<Member>, name: string) returns (i: nat)
    requires name in NameSet(members)
    ensures i < |members| && members[i].name == name
  {
    i :| 0 <= i < |members| && members[i].name == name;
  }

  /** The member of `b` with the canonical form of the i-th member of `a`. */
  lemma FindCanon(a: seq<Member>, i: nat, b: seq<Member>, rank: Collation) returns (j: nat)
    requires i < |a| && CanonMembers(a, rank)[i] in CanonMembers(b, rank)
    ensures j < |b| && b[j].name == a[i].name && Canon(b[j].value, rank) == Canon(a[i].value, rank)
  {
    j :| 0 <= j < |b| && CanonMembers(b, rank)[j] == CanonMembers(a, rank)[i];
    CanonMembersAt(a, i, rank);
    CanonMembersAt(b, j, rank);
  }

  lemma NamesAlike(a: seq<Member>, b: seq<Member>, rank: Collation)
    requires forall m :: m in CanonMembers(a, rank) ==> m in CanonMembers(b, rank)
    ensures NameSet(a) <= NameSet(b)
  {
    hide Canon, CanonMembers;
    forall name | name in NameSet(a) ensures name in NameSet(b) {
      var i := Find(a, name);
      assert CanonMembers(a, rank)[i] in CanonMembers(a, rank);
      var j := FindCanon(a, i, b, rank);
    }
  }

  /** Trees with one canonical form are equal up to key order. */
  lemma {:induction false} CanonTells(a: Json, b: Json, rank: Collation)
    requires Canon(a, rank) == Canon(b, rank) && WellFormed(b)
    ensures Same(a, b)
    decreases a
  {
    match a
    case Array(items) =>
      forall i | 0 <= i < |items| ensures Same(items[i], b.items[i]) {
        CanonItemsAt(items, i, rank);
        CanonItemsAt(b.items, i, rank);
        CanonTells(items[i], b.items[i], rank);
      }
    case Object(members) =>
      SortedAlike(CanonMembers(members, rank), CanonMembers(b.members, rank), rank);
      NamesAlike(members, b.members, rank);
      NamesAlike(b.members, members, rank);
      hide Sort, CanonMembers, NameSet;
      forall i | 0 <= i < |members| ensures Same(members[i].value, Lookup(b.members, members[i].name)) {
        assert CanonMembers(members, rank)[i] in CanonMembers(members, rank);
        var j := FindCanon(members, i, b.members, rank);
        CanonTells(members[i].value, b.members[j].value, rank);
        LookupAt(b.members, j);
      }
    case _ =>
  }

  lemma DistinctRanksOfCanon(members: seq<Member>, rank: Collation)
    requires DistinctRanks(members, rank)
    ensures DistinctRanks(CanonMembers(members, rank), rank)
  {
    forall i | 0 <= i < |members| ensures CanonMembers(members, rank)[i].name == members[i].name {
      CanonMembersAt(members, i, rank);
    }
  }

  lemma SameRanks(a: seq<Member>, b: seq<Member>, rank: Collation)
    requires NameSet(a) == NameSet(b) && DistinctRanks(a, rank) && DistinctNames(b)
    ensures DistinctRanks(b, rank)
  {
    forall j, k | 0 <= j < k < |b| ensures rank(b[j].name) != rank(b[k].name) {
      assert b[j].name in NameSet(b) && b[k].name in NameSet(b);
      hide NameSet;
      var i := Find(a, b[j].name);
      var l := Find(a, b[k].name);
      assert i != l;
    }
  }

  lemma CanonAlike(a: seq<Member>, b: seq<Member>, rank: Collation)
    requires NameSet(a) == NameSet(b) && DistinctNames(b)
    requires forall i :: 0 <= i < |a| ==> Canon(a[i].value, rank) == Canon(Lookup(b, a[i].name), rank)
    ensures forall m :: m in CanonMembers(a, rank) <==> m in CanonMembers(b, rank)
  {
    var ca, cb := CanonMembers(a, rank), CanonMembers(b, rank);
    forall i | 0 <= i < |a| ensures ca[i] in cb {
      assert a[i].name in NameSet(a);
      var j := Find(b, a[i].name);
      LookupAt(b, j);
      CanonMembersAt(a, i, rank);
      CanonMembersAt(b, j, rank);
      assert cb[j] == ca[i];
    }
    forall j | 0 <= j < |b| ensures cb[j] in ca {
      assert b[j].name in NameSet(b);
      var i := Find(a, b[j].name);
      LookupAt(b, j);
      CanonMembersAt(a, i, rank);
      CanonMembersAt(b, j, rank);
      assert cb[j] == ca[i];
    }
  }

  lemma SortHolds(members: seq<Member>, rank: Collation)
    ensures forall m :: m in Sort(members, rank) <==> m in members
  {
    SortKeeps(members, rank);
    hide Sort;
    forall m ensures m in Sort(members, rank) <==> m in members {
      assert m in multiset(Sort(members, rank)) <==> m in multiset(members);
    }
  }

  lemma SortedEqual(a: seq<Member>, b: seq<Member>, rank: Collation)
    requires DistinctRanks(a, rank) && DistinctRanks(b, rank) && forall m :: m in a <==> m in b
    ensures Sort(a, rank) == Sort(b, rank)
  {
    SortIncreases(a, rank);
    SortIncreases(b, rank);
    hide Sort, Increasing, DistinctRanks;
    SortHolds(a, rank);
    SortHolds(b, rank);
    IncreasingIsUnique(Sort(a, rank), Sort(b, rank), rank);
  }

  /** Trees equal up to key order have one canonical form when the collation tells their keys apart. */
  lemma {:induction false} SameCanon(a: Json, b: Json, rank: Collation)
    requires WellFormed(a) && WellFormed(b) && NoTies(a, rank) && Same(a, b)
    ensures Canon(a, rank) == Canon(b, rank)
    decreases a
  {
    match a
    case Array(items) =>
      forall i | 0 <= i < |items| ensures CanonItems(items, rank)[i] == CanonItems(b.items, rank)[i] {
        CanonItemsAt(items, i, rank);
        CanonItemsAt(b.items, i, rank);
        SameCanon(items[i], b.items[i], rank);
      }
    case Object(members) =>
      assert DistinctNames(b.members) && DistinctRanks(members, rank);
      forall i | 0 <= i < |members|
        ensures Canon(members[i].value, rank) == Canon(Lookup(b.members, members[i].name), rank)
      {
        assert members[i].name in NameSet(members);
        var j := Find(b.members, members[i].name);
        LookupAt(b.members, j);
        SameCanon(members[i].value, b.members[j].value, rank);
      }
      CanonAlike(members, b.members, rank);
      SameRanks(members, b.members, rank);
      DistinctRanksOfCanon(members, rank);
      DistinctRanksOfCanon(b.members, rank);
      SortedEqual(CanonMembers(members, rank), CanonMembers(b.members, rank), rank);
    case _ =>
  }

  /** Two trees print the same exactly when they are equal up to key order, given that the collation tells apart
      the keys of each object of the first. */
  lemma PrintsSameIffSame(a: Json, b: Json, rank: Collation)
    requires WellFormed(a) && WellFormed(b) && NoTies(a, rank)
    ensures Stable(a, rank) == Stable(b, rank) <==> Same(a, b)
  {
    hide Same, WellFormed, NoTies, Stable, Plain, Canon;
    StableIsPlainCanon(a, rank);
    StableIsPlainCanon(b, rank);
    if Stable(a, rank) == Stable(b, rank) {
      PlainIsInjective(Canon(a, rank), Canon(b, rank));
      CanonTells(a, b, rank);
    }
    if Same(a, b) { SameCanon(a, b, rank); }
  }

  // ---- ties -------------------------------------------------------------------------------------------------------

  lemma {:induction false} SameAsItself(a: Json)
    requires WellFormed(a)
    ensures Same(a, a)
  {
    match a
    case Array(items) =>
      forall i | 0 <= i < |items| ensures Same(items[i], items[i]) { SameAsItself(items[i]); }
    case Object(members) =>
      forall i | 0 <= i < |members| ensures Same(members[i].value, Lookup(members, members[i].name)) {
        SameAsItself(members[i].value);
        LookupAt(members, i);
      }
    case _ =>
  }

  lemma {:induction false} FirstOfRank(members: seq<Member>, i: nat, rank: Collation) returns (first: nat)
    requires i < |members|
    ensures first <= i && rank(members[first].name) == rank(members[i].name)
    ensures Lead(members, rank(members[i].name), rank) == [members[first]]
    ensures forall k :: 0 <= k < first ==> rank(members[k].name) != rank(members[i].name)
  {
    if rank(members[0].name) == rank(members[i].name) {
      first := 0;
    } else {
      first := FirstOfRank(members[1..], i - 1, rank);
      first := first + 1;
    }
  }

  lemma {:induction false} LeadAt(members: seq<Member>, i: nat, r: real, rank: Collation)
    requires i < |members| && rank(members[i].name) == r
    requires forall k :: 0 <= k < i ==> rank(members[k].name) != r
    ensures Lead(members, r, rank) == [members[i]]
  {
    if i > 0 { LeadAt(members[1..], i - 1, r, rank); }
  }

  function Swap(members: seq<Member>, i: nat, j: nat): (r: seq<Member>)
    requires i < j < |members|
    ensures |r| == |members| && r[i] == members[j] && r[j] == members[i]
    ensures forall k :: 0 <= k < |members| && k != i && k != j ==> r[k] == members[k]
  {
    members[i := members[j]][j := members[i]]
  }

  /** Swapping the first member of a rank with another changes what sorting puts first. */
  lemma SwapShows(members: seq<Member>, i: nat, j: nat, rank: Collation)
    requires DistinctNames(members) && i < j < |members| && rank(members[i].name) == rank(members[j].name)
    requires forall k :: 0 <= k < i ==> rank(members[k].name) != rank(members[i].name)
    ensures Sort(CanonMembers(Swap(members, i, j), rank), rank) != Sort(CanonMembers(members, rank), rank)
  {
    var r := rank(members[i].name);
    var ca, cb := CanonMembers(members, rank), CanonMembers(Swap(members, i, j), rank);
    forall k | 0 <= k < |members| ensures ca[k].name == members[k].name && cb[k].name == Swap(members, i, j)[k].name {
      CanonMembersAt(members, k, rank);
      CanonMembersAt(Swap(members, i, j), k, rank);
    }
    hide CanonMembers, Canon, Swap, Sort, Lead;
    LeadAt(ca, i, r, rank);
    LeadAt(cb, i, r, rank);
    SortLead(ca, r, rank);
    SortLead(cb, r, rank);
    assert ca[i].name != cb[i].name;
  }

  lemma SwapDistinct(members: seq<Member>, i: nat, j: nat)
    requires DistinctNames(members) && i < j < |members|
    ensures DistinctNames(Swap(members, i, j)) && NameSet(Swap(members, i, j)) == NameSet(members)
  {
    var other := Swap(members, i, j);
    forall k | 0 <= k < |members| ensures other[k].name in NameSet(members) && members[k].name in NameSet(other) {
      var l := if k == i then j else if k == j then i else k;
      assert other[l] == members[k] && other[k] == members[l];
    }
  }

  lemma SwapIsSame(members: seq<Member>, i: nat, j: nat)
    requires WellFormed(Object(members)) && i < j < |members|
    ensures WellFormed(Object(Swap(members, i, j))) && Same(Object(members), Object(Swap(members, i, j)))
  {
    var other := Swap(members, i, j);
    SwapDistinct(members, i, j);
    hide DistinctNames, NameSet, Lookup;
    forall k | 0 <= k < |members|
      ensures WellFormed(other[k].value) && Same(members[k].value, Lookup(other, members[k].name))
    {
      var l := if k == i then j else if k == j then i else k;
      assert other[l] == members[k] && other[k] == members[l];
      LookupAt(other, l);
      SameAsItself(members[k].value);
    }
  }

  lemma ReplacedMember(members: seq<Member>, i: nat, value: Json, rank: Collation)
    requires DistinctNames(members) && i < |members| && Canon(value, rank) != Canon(members[i].value, rank)
    ensures Sort(CanonMembers(members[i := Member(members[i].name, value)], rank), rank)
            != Sort(CanonMembers(members, rank), rank)
  {
    var other := members[i := Member(members[i].name, value)];
    var ca, cb := CanonMembers(members, rank), CanonMembers(other, rank);
    forall k | 0 <= k < |members| ensures ca[k].name == members[k].name {
      CanonMembersAt(members, k, rank);
    }
    CanonMembersAt(members, i, rank);
    CanonMembersAt(other, i, rank);
    assert cb[i] in cb && cb[i] !in ca;
    if Sort(ca, rank) == Sort(cb, rank) { SortedAlike(ca, cb, rank); }
  }

  /** A tree with a tie has a reordering that prints differently. */
  lemma {:induction false} TieShows(a: Json, rank: Collation) returns (b: Json)
    requires WellFormed(a) && !NoTies(a, rank)
    ensures WellFormed(b) && Same(a, b) && Canon(a, rank) != Canon(b, rank)
    decreases a
  {
    hide Sort, CanonMembers, CanonItems;
    match a
    case Array(items) =>
      var i :| 0 <= i < |items| && !NoTies(items[i], rank);
      var other := TieShows(items[i], rank);
      b := Array(items[i := other]);
      CanonItemsAt(items, i, rank);
      CanonItemsAt(b.items, i, rank);
      forall k | 0 <= k < |items| ensures Same(items[k], b.items[k]) { if k != i { SameAsItself(items[k]); } }
    case Object(members) =>
      if DistinctRanks(members, rank) {
        var i :| 0 <= i < |members| && !NoTies(members[i].value, rank);
        var other := TieShows(members[i].value, rank);
        b := Object(members[i := Member(members[i].name, other)]);
        ReplacedMember(members, i, other, rank);
        Replaced(members, i, other);
      } else {
        var i, j :| 0 <= i < j < |members| && rank(members[i].name) == rank(members[j].name);
        var first := FirstOfRank(members, i, rank);
        b := Object(Swap(members, first, j));
        SwapShows(members, first, j, rank);
        SwapIsSame(members, first, j);
      }
  }

  lemma Replaced(members: seq<Member>, i: nat, value: Json)
    requires WellFormed(Object(members)) && i < |members| && WellFormed(value) && Same(members[i].value, value)
    ensures var other := Object(members[i := Member(members[i].name, value)]);
            WellFormed(other) && Same(Object(members), other)
  {
    var other := members[i := Member(members[i].name, value)];
    assert forall k :: 0 <= k < |members| ==> other[k].name == members[k].name;
    assert DistinctNames(members);
    assert NameSet(other) == NameSet(members);
    forall k | 0 <= k < |members|
      ensures WellFormed(other[k].value) && Same(members[k].value, Lookup(other, members[k].name))
    {
      LookupAt(other, k);
      if k != i { SameAsItself(members[k].value); }
    }
  }

  /** Every reordering of a tree's keys prints the same exactly when the collation tells apart the keys of each
      of its objects. */
  lemma KeyOrderIsLostIffNoTies(a: Json, rank: Collation)
    requires WellFormed(a)
    ensures (forall b :: WellFormed(b) && Same(a, b) ==> Stable(a, rank) == Stable(b, rank)) <==> NoTies(a, rank)
  {
    hide Same, WellFormed, NoTies, Stable, Plain, Canon;
    if NoTies(a, rank) {
      forall b | WellFormed(b) && Same(a, b) ensures Stable(a, rank) == Stable(b, rank) {
        PrintsSameIffSame(a, b, rank);
      }
    } else {
      var b := TieShows(a, rank);
      StableIsPlainCanon(a, rank);
      StableIsPlainCanon(b, rank);
      if Stable(a, rank) == Stable(b, rank) { PlainIsInjective(Canon(a, rank), Canon(b, rank)); }
    }
  }

  /** Two trees that print the same are equal up to key order, whatever the collation. */
  lemma PrintTells(a: Json, b: Json, rank: Collation)
    requires Stable(a, rank) == Stable(b, rank) && WellFormed(b)
    ensures Same(a, b)
  {
    hide Same, WellFormed, Stable, Plain, Canon;
    StableIsPlainCanon(a, rank);
    StableIsPlainCanon(b, rank);
    PlainIsInjective(Canon(a, rank), Canon(b, rank));
    CanonTells(a, b, rank);
  }

  // ---- idempotency keys -------------------------------------------------------------------------------------------

  /** The names and versions the tool registry admits. */
  predicate ToolName(s: string) {
    3 <= |s| <= 64 && 'a' <= s[0] <= 'z' && forall c <- s :: 'a' <= c <= 'z' || '0' <= c <= '9' || c == '_'
  }

  predicate ToolVersion(s: string) {
    forall c <- s :: '0' <= c <= '9' || c == '.'
  }

  datatype Call = Call(workspaceId: string, runId: string, tool: string, version: string, arguments: Json)

  /** What is hashed to make the idempotency key. */
  function Preimage(call: Call, rank: Collation): string {
    call.workspaceId + (":" + (call.runId + (":" + (call.tool + (":" + (call.version + (":" + Stable(call.arguments, rank))))))))
  }

  predicate WellMade(call: Call) {
    && ':' !in call.workspaceId && ':' !in call.runId && ToolName(call.tool) && ToolVersion(call.version)
    && WellFormed(call.arguments)
  }

  lemma ColonComesFirst(s: string, t: string, x: string, y: string)
    requires ':' !in t && |s| < |t|
    ensures s + (":" + x) != t + (":" + y)
  {
    assert (s + (":" + x))[|s|] == ':' && (t + (":" + y))[|s|] == t[|s|];
    assert t[|s|] in t;
  }

  lemma ColonEnds(s: string, t: string, x: string, y: string)
    requires ':' !in s && ':' !in t && s + (":" + x) == t + (":" + y)
    ensures s == t && x == y
  {
    if |s| < |t| { ColonComesFirst(s, t, x, y); }
    if |t| < |s| { ColonComesFirst(t, s, y, x); }
    Split(s, ":" + x, t, ":" + y);
    Cancel(":", x, y);
  }

  /** Two calls are given one key to hash exactly when they are the same call of the same run with the same
      arguments up to key order. */
  lemma KeysAgreeIffSameCall(a: Call, b: Call, rank: Collation)
    requires WellMade(a) && WellMade(b) && NoTies(a.arguments, rank)
    ensures Preimage(a, rank) == Preimage(b, rank) <==>
            && a.workspaceId == b.workspaceId && a.runId == b.runId && a.tool == b.tool && a.version == b.version
            && Same(a.arguments, b.arguments)
  {
    PrintsSameIffSame(a.arguments, b.arguments, rank);
    if Preimage(a, rank) == Preimage(b, rank) {
      var a4, b4 := Stable(a.arguments, rank), Stable(b.arguments, rank);
      hide Stable, Same, WellFormed, NoTies;
      var a3, b3 := a.version + (":" + a4), b.version + (":" + b4);
      var a2, b2 := a.tool + (":" + a3), b.tool + (":" + b3);
      var a1, b1 := a.runId + (":" + a2), b.runId + (":" + b2);
      ColonEnds(a.workspaceId, b.workspaceId, a1, b1);
      ColonEnds(a.runId, b.runId, a2, b2);
      ColonEnds(a.tool, b.tool, a3, b3);
      ColonEnds(a.version, b.version, a4, b4);
    }
  }

  /** Were ids free to hold colons, two runs could share a key. */
  lemma ColonsWouldCollide(tool: string, version: string, arguments: Json, rank: Collation)
    ensures Preimage(Call("a:b", "c", tool, version, arguments), rank)
            == Preimage(Call("a", "b:c", tool, version, arguments), rank)
  {
    var rest := ":" + (tool + (":" + (version + (":" + Stable(arguments, rank)))));
    assert "a:b" + (":" + ("c" + rest)) == "a" + (":" + ("b:c" + rest));
  }
}
