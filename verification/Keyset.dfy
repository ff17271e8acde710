/** Keyset pagination: one page, the walk along `nextCursor`, and the walk over a changing collection. */
module Keyset {
  import opened Options

  /** A sort value: nothing (a null or missing field, which sorts first), or a place within the order of its
      BSON type bracket. Range operators compare within a bracket only. */
  datatype SortValue = Absent | Present(bracket: nat, rank: real)

  datatype Doc = Doc(id: int, value: SortValue)

  /** The sort field and `_id` are ordered in the same direction. */
  datatype Direction = Ascending | Descending

  function Bracket(v: SortValue): int { if v.Absent? then -1 else v.bracket }

  predicate ValueLess(a: SortValue, b: SortValue) {
    || Bracket(a) < Bracket(b)
    || (Bracket(a) == Bracket(b) && a.Present? && b.Present? && a.rank < b.rank)
  }

  predicate Less(a: Doc, b: Doc) {
    ValueLess(a.value, b.value) || (a.value == b.value && a.id < b.id)
  }

  /** `a` comes before `b` in a listing. */
  predicate Before(direction: Direction, a: Doc, b: Doc) {
    if direction == Ascending then Less(a, b) else Less(b, a)
  }

  // ---- the database ------------------------------------------------------------------------------------

  /** `$gt` and `$lt`: only values of the same bracket compare, and nothing compares with null. */
  predicate RangeMatch(direction: Direction, v: SortValue, bound: SortValue) {
    && v.Present? && bound.Present? && v.bracket == bound.bracket
    && if direction == Ascending then v.rank > bound.rank else v.rank < bound.rank
  }

  /** The condition a cursor adds to the query. */
  predicate PastCursor(direction: Direction, d: Doc, cursor: Option<Doc>) {
    cursor.Some? ==>
      || RangeMatch(direction, d.value, cursor.value.value)
      || (d.value == cursor.value.value
          && if direction == Ascending then d.id > cursor.value.id else d.id < cursor.value.id)
  }

  function Place(direction: Direction, d: Doc, sorted: seq<Doc>): seq<Doc> {
    if sorted == [] || Before(direction, d, sorted[0]) then [d] + sorted
    else [sorted[0]] + Place(direction, d, sorted[1..])
  }

  function Sort(direction: Direction, docs: seq<Doc>): seq<Doc> {
    if docs == [] then [] else Place(direction, docs[0], Sort(direction, docs[1..]))
  }

  function Filter(direction: Direction, docs: seq<Doc>, cursor: Option<Doc>): seq<Doc> {
    if docs == [] then []
    else (if PastCursor(direction, docs[0], cursor) then [docs[0]] else []) + Filter(direction, docs[1..], cursor)
  }

  /** The documents a page query can return, in order. */
  function Candidates(direction: Direction, docs: seq<Doc>, cursor: Option<Doc>): seq<Doc> {
    Filter(direction, Sort(direction, docs), cursor)
  }

  datatype Page = Page(items: seq<Doc>, nextCursor: Option<Doc>)

  /** One page: `limit + 1` documents are read to learn whether more follow. */
  function PageOf(direction: Direction, docs: seq<Doc>, cursor: Option<Doc>, limit: nat): Page {
    var found := Candidates(direction, docs, cursor);
    if |found| <= limit then Page(found, None)
    else Page(found[..limit], if limit == 0 then None else Some(found[limit - 1]))
  }

  // ---- order -----------------------------------------------------------------------------------------------

  predicate DistinctIds(docs: seq<Doc>) {
    forall i, j :: 0 <= i < j < |docs| ==> docs[i].id != docs[j].id
  }

  predicate InOrder(direction: Direction, docs: seq<Doc>) {
    forall i, j :: 0 <= i < j < |docs| ==> Before(direction, docs[i], docs[j])
  }

  lemma BeforeIsTotal(direction: Direction, a: Doc, b: Doc)
    ensures a.id != b.id ==> Before(direction, a, b) || Before(direction, b, a)
    ensures !(Before(direction, a, b) && Before(direction, b, a))
  {}

  lemma BeforeIsTransitive(direction: Direction, a: Doc, b: Doc, c: Doc)
    requires Before(direction, a, b) && Before(direction, b, c)
    ensures Before(direction, a, c)
  {}

  lemma InOrderCons(direction: Direction, d: Doc, rest: seq<Doc>)
    requires InOrder(direction, rest) && forall e <- rest :: Before(direction, d, e)
    ensures InOrder(direction, [d] + rest)
  {
    hide Before;
    var all := [d] + rest;
    forall i, j | 0 <= i < j < |all| ensures Before(direction, all[i], all[j]) {
      assert all[j] == rest[j - 1] && rest[j - 1] in rest;
    }
  }

  lemma {:induction false} PlaceKeepsOrder(direction: Direction, d: Doc, sorted: seq<Doc>)
    requires InOrder(direction, sorted) && forall e <- sorted :: e.id != d.id
    ensures var placed := Place(direction, d, sorted);
            InOrder(direction, placed) && multiset(placed) == multiset(sorted) + multiset{d}
  {
    if sorted == [] {
    } else {
      assert sorted == [sorted[0]] + sorted[1..];
      BeforeIsTotal(direction, d, sorted[0]);
      if Before(direction, d, sorted[0]) {
        forall e <- sorted ensures Before(direction, d, e) {
          if e != sorted[0] { BeforeIsTransitive(direction, d, sorted[0], e); }
        }
        InOrderCons(direction, d, sorted);
      } else {
        PlaceKeepsOrder(direction, d, sorted[1..]);
        var rest := Place(direction, d, sorted[1..]);
        forall e <- rest ensures Before(direction, sorted[0], e) {
          assert e in multiset(rest);
        }
        InOrderCons(direction, sorted[0], rest);
      }
      hide Before, InOrder;
    }
  }

  /** Sorting yields the documents in listing order. */
  lemma {:induction false} SortIsInOrder(direction: Direction, docs: seq<Doc>)
    requires DistinctIds(docs)
    ensures InOrder(direction, Sort(direction, docs))
    ensures multiset(Sort(direction, docs)) == multiset(docs)
    ensures |Sort(direction, docs)| == |docs|
  {
    if docs != [] {
      SortIsInOrder(direction, docs[1..]);
      var rest := Sort(direction, docs[1..]);
      forall e <- rest ensures e.id != docs[0].id {
        assert e in multiset(rest);
      }
      PlaceKeepsOrder(direction, docs[0], rest);
      assert docs == [docs[0]] + docs[1..];
      assert |multiset(Sort(direction, docs))| == |multiset(docs)|;
    }
  }

  lemma {:induction false} FilterMembers(direction: Direction, docs: seq<Doc>, cursor: Option<Doc>)
    requires InOrder(direction, docs)
    ensures InOrder(direction, Filter(direction, docs, cursor))
    ensures forall d :: d in Filter(direction, docs, cursor) <==> d in docs && PastCursor(direction, d, cursor)
  {
    if docs != [] {
      var rest := Filter(direction, docs[1..], cursor);
      FilterMembers(direction, docs[1..], cursor);
      assert docs == [docs[0]] + docs[1..];
      forall k | 0 <= k < |rest| ensures Before(direction, docs[0], rest[k]) {
        assert rest[k] in docs[1..];
        var j :| 0 <= j < |docs[1..]| && docs[1..][j] == rest[k];
        assert docs[j + 1] == rest[k];
      }
    }
  }

  lemma {:induction false} FilterAll(direction: Direction, docs: seq<Doc>)
    ensures Filter(direction, docs, None) == docs
  {
    if docs != [] { FilterAll(direction, docs[1..]); }
  }

  /** A condition that holds exactly on an interval of positions selects that slice. */
  lemma {:induction false} FilterInterval(direction: Direction, docs: seq<Doc>, cursor: Option<Doc>, from: nat, to: nat)
    requires from <= to <= |docs|
    requires forall j :: 0 <= j < |docs| ==> (PastCursor(direction, docs[j], cursor) <==> from <= j < to)
    ensures Filter(direction, docs, cursor) == docs[from..to]
  {
    if docs != [] {
      var rest := docs[1..];
      assert forall j :: 0 <= j < |rest| ==> rest[j] == docs[j + 1];
      if to == 0 {
        FilterInterval(direction, rest, cursor, 0, 0);
      } else if from == 0 {
        FilterInterval(direction, rest, cursor, 0, to - 1);
        assert docs[0..to] == [docs[0]] + rest[0..to - 1];
      } else {
        FilterInterval(direction, rest, cursor, from - 1, to - 1);
        assert docs[from..to] == rest[from - 1..to - 1];
      }
    }
  }

  // ---- the walk over a fixed collection ------------------------------------------------------------------

  /** The end of the run of documents from position `i` on in the bracket of the document before it. */
  function BracketEnd(listing: seq<Doc>, i: nat): nat
    requires 0 < i <= |listing|
    ensures i <= BracketEnd(listing, i) <= |listing|
    decreases |listing| - i
  {
    if i == |listing| || Bracket(listing[i].value) != Bracket(listing[i - 1].value) then i
    else BracketEnd(listing, i + 1)
  }

  lemma {:induction false} BracketEndBounds(direction: Direction, listing: seq<Doc>, i: nat)
    requires InOrder(direction, listing) && 0 < i <= |listing|
    ensures forall j :: i <= j < |listing| ==>
              (Bracket(listing[j].value) == Bracket(listing[i - 1].value) <==> j < BracketEnd(listing, i))
    decreases |listing| - i
  {
    if i < |listing| && Bracket(listing[i].value) == Bracket(listing[i - 1].value) {
      BracketEndBounds(direction, listing, i + 1);
    } else if i < |listing| {
      forall j | i <= j < |listing| ensures Bracket(listing[j].value) != Bracket(listing[i - 1].value) {
        assert Before(direction, listing[i - 1], listing[i]);
        assert j > i ==> Before(direction, listing[i], listing[j]);
      }
    }
  }

  lemma PastPosition(direction: Direction, listing: seq<Doc>, i: nat)
    requires InOrder(direction, listing) && 0 < i <= |listing|
    ensures Filter(direction, listing, Some(listing[i - 1])) == listing[i..BracketEnd(listing, i)]
  {
    BracketEndBounds(direction, listing, i);
    var c := listing[i - 1];
    forall j | 0 <= j < |listing|
      ensures PastCursor(direction, listing[j], Some(c)) <==> i <= j < BracketEnd(listing, i)
    {
      if j < i - 1 {
        assert Before(direction, listing[j], c);
      } else if i <= j {
        assert Before(direction, c, listing[j]);
      }
    }
    FilterInterval(direction, listing, Some(c), i, BracketEnd(listing, i));
  }

  /** The pages a client collects by following `nextCursor`; `fuel` bounds how many it asks for. */
  function Walk(direction: Direction, docs: seq<Doc>, cursor: Option<Doc>, limit: nat, fuel: nat): seq<Page>
    decreases fuel
  {
    if fuel == 0 then []
    else
      var page := PageOf(direction, docs, cursor, limit);
      [page] + if page.nextCursor.None? then [] else Walk(direction, docs, page.nextCursor, limit, fuel - 1)
  }

  function ItemsOf(pages: seq<Page>): seq<Doc> {
    if pages == [] then [] else pages[0].items + ItemsOf(pages[1..])
  }

  /** The walk reached a page without a next cursor. */
  predicate Finished(pages: seq<Page>) {
    pages != [] && pages[|pages| - 1].nextCursor.None?
  }

  lemma WalkStep(direction: Direction, docs: seq<Doc>, cursor: Option<Doc>, limit: nat, fuel: nat)
    requires fuel > 0
    ensures var page := PageOf(direction, docs, cursor, limit);
            var pages := Walk(direction, docs, cursor, limit, fuel);
            var rest := Walk(direction, docs, page.nextCursor, limit, fuel - 1);
            if page.nextCursor.None? then Finished(pages) && ItemsOf(pages) == page.items
            else (Finished(rest) ==> Finished(pages)) && ItemsOf(pages) == page.items + ItemsOf(rest)
  {
    hide PageOf;
    var page := PageOf(direction, docs, cursor, limit);
    var pages := Walk(direction, docs, cursor, limit, fuel);
    if page.nextCursor.None? {
      assert pages == [page] && pages[1..] == [];
    } else {
      assert pages[1..] == Walk(direction, docs, page.nextCursor, limit, fuel - 1);
    }
  }

  /** The page after position `i` is the next slice of the listing, as far as the bracket goes. */
  lemma PageAt(direction: Direction, docs: seq<Doc>, i: nat, limit: nat)
    requires DistinctIds(docs) && limit > 0 && 0 < i <= |Sort(direction, docs)|
    ensures var listing := Sort(direction, docs);
            var e := BracketEnd(listing, i);
            PageOf(direction, docs, Some(listing[i - 1]), limit)
            == if e - i <= limit then Page(listing[i..e], None)
               else Page(listing[i..i + limit], Some(listing[i + limit - 1]))
  {
    hide Sort, Filter, BracketEnd, InOrder, DistinctIds;
    var listing := Sort(direction, docs);
    SortIsInOrder(direction, docs);
    PastPosition(direction, listing, i);
    var e := BracketEnd(listing, i);
    if e - i > limit {
      assert listing[i..e][..limit] == listing[i..i + limit];
    }
  }

  lemma {:induction false} WalkFrom(direction: Direction, docs: seq<Doc>, i: nat, limit: nat, fuel: nat)
    requires DistinctIds(docs) && limit > 0
    requires var listing := Sort(direction, docs); 0 < i <= |listing| && fuel > |listing| - i
    ensures var listing := Sort(direction, docs);
            var pages := Walk(direction, docs, Some(listing[i - 1]), limit, fuel);
            Finished(pages) && ItemsOf(pages) == listing[i..BracketEnd(listing, i)]
    decreases fuel
  {
    hide Sort, DistinctIds, PageOf, Walk, BracketEnd, Finished, ItemsOf;
    var listing := Sort(direction, docs);
    var e := BracketEnd(listing, i);
    PageAt(direction, docs, i, limit);
    WalkStep(direction, docs, Some(listing[i - 1]), limit, fuel);
    if e - i > limit {
      SameEnd(listing, i, i + limit);
      WalkFrom(direction, docs, i + limit, limit, fuel - 1);
      assert listing[i..i + limit] + listing[i + limit..e] == listing[i..e];
    }
  }

  lemma {:induction false} SameEnd(listing: seq<Doc>, i: nat, k: nat)
    requires 0 < i <= |listing| && i <= k <= BracketEnd(listing, i)
    ensures BracketEnd(listing, k) == BracketEnd(listing, i)
    decreases k - i
  {
    if i < k {
      SameEnd(listing, i + 1, k);
    }
  }

  /** Following `nextCursor` from the first page always ends. The pages concatenate to exactly the listing,
      each document once, exactly when everything fits one page or the first page ends in the type bracket
      the listing ends in; otherwise the later brackets are lost. */
  lemma PagesReassembleTheListing(direction: Direction, docs: seq<Doc>, limit: nat, fuel: nat)
    requires DistinctIds(docs) && limit > 0 && fuel > |docs| + 1
    ensures var listing := Sort(direction, docs);
            var pages := Walk(direction, docs, None, limit, fuel);
            && InOrder(direction, listing) && multiset(listing) == multiset(docs)
            && Finished(pages)
            && ItemsOf(pages) <= listing
            && (ItemsOf(pages) == listing <==>
                  |listing| <= limit
                  || Bracket(listing[limit - 1].value) == Bracket(listing[|listing| - 1].value))
  {
    hide Sort, DistinctIds, InOrder, PageOf, Walk, BracketEnd, Finished, ItemsOf, Bracket;
    var listing := Sort(direction, docs);
    FirstPage(direction, docs, limit);
    SortIsInOrder(direction, docs);
    WalkStep(direction, docs, None, limit, fuel);
    if |listing| > limit {
      WalkFrom(direction, docs, limit, limit, fuel - 1);
      BracketEndBounds(direction, listing, limit);
      assert listing[..limit] + listing[limit..BracketEnd(listing, limit)] == listing[..BracketEnd(listing, limit)];
    }
  }

  lemma FirstPage(direction: Direction, docs: seq<Doc>, limit: nat)
    requires limit > 0
    ensures var listing := Sort(direction, docs);
            PageOf(direction, docs, None, limit)
            == if |listing| <= limit then Page(listing, None) else Page(listing[..limit], Some(listing[limit - 1]))
  {
    FilterAll(direction, Sort(direction, docs));
  }

  // ---- the walk with cursors carried as text ---------------------------------------------------------------

  /** The pages a client collected, and whether its last cursor was refused. */
  datatype Journey = Journey(pages: seq<Page>, refused: bool)

  /** The walk as a client makes it: each cursor is handed out as text and read back by `carry`, which yields
      nothing for one it refuses. */
  function WalkVia(
      direction: Direction, docs: seq<Doc>, cursor: Option<Doc>, limit: nat, fuel: nat, carry: Doc -> Option<Doc>): Journey
    decreases fuel
  {
    if fuel == 0 then Journey([], false)
    else
      var page := PageOf(direction, docs, cursor, limit);
      if page.nextCursor.None? then Journey([page], false)
      else
        match carry(page.nextCursor.value)
        case None => Journey([page], true)
        case Some(c) =>
          var rest := WalkVia(direction, docs, Some(c), limit, fuel - 1, carry);
          Journey([page] + rest.pages, rest.refused)
  }

  /** Some page before position `end`, counted on from the page that ends at `i`, ends with a document whose
      cursor is refused. */
  predicate Refuses(listing: seq<Doc>, i: nat, end: nat, limit: nat, carry: Doc -> Option<Doc>)
    requires 0 < i <= |listing| && end <= |listing| && limit > 0
    decreases |listing| - i
  {
    carry(listing[i - 1]).None? || (i + limit < end && Refuses(listing, i + limit, end, limit, carry))
  }

  /** A cursor that is not refused comes back as it was. */
  predicate Carries(docs: seq<Doc>, carry: Doc -> Option<Doc>) {
    forall d <- docs :: carry(d) == None || carry(d) == Some(d)
  }

  lemma ViaStep(direction: Direction, docs: seq<Doc>, c: Doc, limit: nat, fuel: nat, carry: Doc -> Option<Doc>)
    requires fuel > 0
    ensures var page := PageOf(direction, docs, Some(c), limit);
            var via := WalkVia(direction, docs, Some(c), limit, fuel, carry);
            var walk := Walk(direction, docs, Some(c), limit, fuel);
            if page.nextCursor.None? then via == Journey([page], false) && walk == [page]
            else
              var next := page.nextCursor;
              var rest := WalkVia(direction, docs, next, limit, fuel - 1, carry);
              && walk == [page] + Walk(direction, docs, next, limit, fuel - 1)
              && (carry(next.value) == None ==> via == Journey([page], true))
              && (carry(next.value) == next ==> via == Journey([page] + rest.pages, rest.refused))
  {
    hide PageOf;
  }

  lemma {:induction false} ViaFrom(
      direction: Direction, docs: seq<Doc>, i: nat, limit: nat, fuel: nat, carry: Doc -> Option<Doc>)
    requires DistinctIds(docs) && limit > 0
    requires var listing := Sort(direction, docs); 0 < i <= |listing| && fuel > |listing| - i && Carries(listing, carry)
    ensures var listing := Sort(direction, docs);
            var end := BracketEnd(listing, i);
            var via := WalkVia(direction, docs, Some(listing[i - 1]), limit, fuel, carry);
            && (via.refused <==> i + limit < end && Refuses(listing, i + limit, end, limit, carry))
            && (!via.refused ==> via.pages == Walk(direction, docs, Some(listing[i - 1]), limit, fuel))
    decreases fuel
  {
    hide Sort, DistinctIds, PageOf, BracketEnd, Walk, WalkVia;
    var listing := Sort(direction, docs);
    var end := BracketEnd(listing, i);
    PageAt(direction, docs, i, limit);
    ViaStep(direction, docs, listing[i - 1], limit, fuel, carry);
    if i + limit < end {
      assert listing[i + limit - 1] in listing;
      SameEnd(listing, i, i + limit);
      ViaFrom(direction, docs, i + limit, limit, fuel - 1, carry);
    }
  }

  /** A client's walk is the walk, unless a page with more to come ends with a document whose cursor is refused;
      it then stops there with an error. */
  lemma CarriedWalk(direction: Direction, docs: seq<Doc>, limit: nat, fuel: nat, carry: Doc -> Option<Doc>)
    requires DistinctIds(docs) && limit > 0 && fuel > |docs| + 1 && Carries(docs, carry)
    ensures var listing := Sort(direction, docs);
            var via := WalkVia(direction, docs, None, limit, fuel, carry);
            && (via.refused <==>
                  |listing| > limit && Refuses(listing, limit, BracketEnd(listing, limit), limit, carry))
            && (!via.refused ==> via.pages == Walk(direction, docs, None, limit, fuel))
  {
    hide Sort, DistinctIds, PageOf, BracketEnd;
    var listing := Sort(direction, docs);
    SortIsInOrder(direction, docs);
    FirstPage(direction, docs, limit);
    forall d <- listing ensures carry(d) == None || carry(d) == Some(d) {
      assert d in multiset(listing);
      assert d in docs;
    }
    if |listing| > limit {
      assert listing[limit - 1] in listing;
      ViaFrom(direction, docs, limit, limit, fuel - 1, carry);
    }
  }

  // ---- the walk over a changing collection --------------------------------------------------------------------

  /** The pages of a walk whose k-th request finds the collection as `stores[k]`. */
  function WalkOver(direction: Direction, stores: seq<seq<Doc>>, cursor: Option<Doc>, limit: nat): seq<Page>
    decreases |stores|
  {
    if |stores| == 0 then []
    else
      var page := PageOf(direction, stores[0], cursor, limit);
      [page] + if page.nextCursor.None? then [] else WalkOver(direction, stores[1..], page.nextCursor, limit)
  }

  function Times(d: Doc, docs: seq<Doc>): nat { multiset(docs)[d] }

  lemma PastCursorIff(direction: Direction, c: Doc, d: Doc)
    requires c.id == d.id ==> c == d
    ensures PastCursor(direction, d, Some(c)) <==> Before(direction, c, d) && Bracket(c.value) == Bracket(d.value)
  {}

  lemma {:induction false} InOrderIsDistinct(direction: Direction, docs: seq<Doc>, d: Doc)
    requires InOrder(direction, docs)
    ensures Times(d, docs) == if d in docs then 1 else 0
  {
    if docs != [] {
      InOrderIsDistinct(direction, docs[1..], d);
      assert docs == [docs[0]] + docs[1..];
      forall j | 0 <= j < |docs[1..]| ensures docs[1..][j] != docs[0] {
        assert Before(direction, docs[0], docs[j + 1]);
        BeforeIsTotal(direction, docs[0], docs[0]);
      }
    }
  }

  lemma CandidatesAre(direction: Direction, docs: seq<Doc>, cursor: Option<Doc>)
    requires DistinctIds(docs)
    ensures var found := Candidates(direction, docs, cursor);
            InOrder(direction, found) && forall d :: d in found <==> d in docs && PastCursor(direction, d, cursor)
  {
    hide Filter, Sort, PastCursor, InOrder, DistinctIds;
    SortIsInOrder(direction, docs);
    FilterMembers(direction, Sort(direction, docs), cursor);
    forall d ensures d in Sort(direction, docs) <==> d in docs {
      assert d in Sort(direction, docs) <==> d in multiset(Sort(direction, docs));
      assert d in docs <==> d in multiset(docs);
    }
  }

  /** What one page does with a document that is in the collection: it returns it, or passes it by, or leaves
      it for later with a cursor before it. */
  lemma PageAndDocument(direction: Direction, docs: seq<Doc>, cursor: Option<Doc>, limit: nat, d: Doc)
    requires DistinctIds(docs) && limit > 0 && d in docs
    ensures var page := PageOf(direction, docs, cursor, limit);
            var next := page.nextCursor;
            && Times(d, page.items) == (if d in page.items then 1 else 0)
            && (d in page.items ==> PastCursor(direction, d, cursor))
            && (d in page.items && next.Some? ==> !Before(direction, next.value, d))
            && (PastCursor(direction, d, cursor) && d !in page.items ==> next.Some? && Before(direction, next.value, d))
            && (next.Some? ==> PastCursor(direction, next.value, cursor) && (next.value.id == d.id ==> next.value == d))
  {
    hide Candidates, PastCursor, Before;
    var found := Candidates(direction, docs, cursor);
    CandidatesAre(direction, docs, cursor);
    var page := PageOf(direction, docs, cursor, limit);
    assert forall e <- page.items :: e in found;
    assert InOrder(direction, page.items);
    InOrderIsDistinct(direction, page.items, d);
    if |found| > limit {
      var last := found[limit - 1];
      assert last in found;
      assert last in docs;
      if d in page.items {
        var i :| 0 <= i < limit && found[i] == d;
        BeforeIsTotal(direction, d, last);
        BeforeIsTotal(direction, last, last);
        assert i < limit - 1 ==> Before(direction, found[i], found[limit - 1]);
      } else if d in found {
        var i :| 0 <= i < |found| && found[i] == d;
        assert forall k :: 0 <= k < limit ==> page.items[k] == found[k];
        assert Before(direction, found[limit - 1], found[i]);
      }
    }
  }

  /** A document at or before the cursor, or behind it in another bracket, is not returned any more. */
  lemma {:induction false} NotReturned(direction: Direction, stores: seq<seq<Doc>>, c: Doc, limit: nat, d: Doc)
    requires limit > 0 && forall s <- stores :: DistinctIds(s) && d in s
    requires c.id == d.id ==> c == d
    requires !Before(direction, c, d) || Bracket(c.value) != Bracket(d.value)
    ensures Times(d, ItemsOf(WalkOver(direction, stores, Some(c), limit))) == 0
    decreases |stores|
  {
    if |stores| != 0 {
      assert stores[0] in stores;
      var page := PageOf(direction, stores[0], Some(c), limit);
      PageAndDocument(direction, stores[0], Some(c), limit, d);
      PastCursorIff(direction, c, d);
      OverStep(direction, stores, Some(c), limit);
      if page.nextCursor.Some? {
        var next := page.nextCursor.value;
        StaysBehind(direction, c, next, d);
        NotReturned(direction, stores[1..], next, limit, d);
      }
    }
  }

  lemma StaysBehind(direction: Direction, c: Doc, next: Doc, d: Doc)
    requires PastCursor(direction, next, Some(c))
    requires !Before(direction, c, d) || Bracket(c.value) != Bracket(d.value)
    requires (c.id == d.id ==> c == d) && (next.id == d.id ==> next == d)
    ensures !Before(direction, next, d) || Bracket(next.value) != Bracket(d.value)
  {}

  lemma OverStep(direction: Direction, stores: seq<seq<Doc>>, cursor: Option<Doc>, limit: nat)
    requires |stores| > 0
    ensures var page := PageOf(direction, stores[0], cursor, limit);
            var pages := WalkOver(direction, stores, cursor, limit);
            var rest := WalkOver(direction, stores[1..], page.nextCursor, limit);
            && pages == [page] + (if page.nextCursor.None? then [] else rest)
            && ItemsOf(pages) == page.items + (if page.nextCursor.None? then [] else ItemsOf(rest))
  {
    hide PageOf;
    var page := PageOf(direction, stores[0], cursor, limit);
    var pages := WalkOver(direction, stores, cursor, limit);
    assert page.nextCursor.None? ==> pages[1..] == [];
    assert page.nextCursor.Some? ==> pages[1..] == WalkOver(direction, stores[1..], page.nextCursor, limit);
  }

  lemma TimesAppend(d: Doc, a: seq<Doc>, b: seq<Doc>)
    ensures Times(d, a + b) == Times(d, a) + Times(d, b)
  {}

  lemma NoPages(direction: Direction, stores: seq<seq<Doc>>, cursor: Option<Doc>, limit: nat)
    requires |stores| == 0
    ensures var pages := WalkOver(direction, stores, cursor, limit);
            ItemsOf(pages) == [] && !Finished(pages)
  {}

  /** Every later cursor keeps the bracket of the first, so what lies past a cursor stays past the next one until
      it is returned. */
  lemma StaysAhead(direction: Direction, c: Doc, next: Doc, d: Doc)
    requires PastCursor(direction, next, Some(c)) && PastCursor(direction, d, Some(c)) && Before(direction, next, d)
    requires (c.id == d.id ==> c == d) && (next.id == d.id ==> next == d)
    ensures PastCursor(direction, d, Some(next))
  {}

  lemma FinishedStep(direction: Direction, stores: seq<seq<Doc>>, cursor: Option<Doc>, limit: nat)
    requires |stores| > 0
    ensures var page := PageOf(direction, stores[0], cursor, limit);
            Finished(WalkOver(direction, stores, cursor, limit)) <==>
              page.nextCursor.None? || Finished(WalkOver(direction, stores[1..], page.nextCursor, limit))
  {
    hide PageOf;
    OverStep(direction, stores, cursor, limit);
    var page := PageOf(direction, stores[0], cursor, limit);
    var rest := WalkOver(direction, stores[1..], page.nextCursor, limit);
    hide WalkOver;
    assert rest != [] ==> ([page] + rest)[|rest|] == rest[|rest| - 1];
  }

  /** What a walk that goes on from `c` does with a document past `c`. */
  lemma {:induction false} ReturnedOnce(direction: Direction, stores: seq<seq<Doc>>, c: Doc, limit: nat, d: Doc)
    requires limit > 0 && forall s <- stores :: DistinctIds(s) && d in s
    requires PastCursor(direction, d, Some(c)) && (c.id == d.id ==> c == d)
    ensures var pages := WalkOver(direction, stores, Some(c), limit);
            Times(d, ItemsOf(pages)) <= 1 && (Finished(pages) ==> Times(d, ItemsOf(pages)) == 1)
    decreases |stores|
  {
    if |stores| == 0 {
      NoPages(direction, stores, Some(c), limit);
    } else {
      assert stores[0] in stores;
      hide PageOf, WalkOver, PastCursor, Before, Bracket, DistinctIds, ItemsOf, Times, Finished;
      var page := PageOf(direction, stores[0], Some(c), limit);
      PageAndDocument(direction, stores[0], Some(c), limit, d);
      OverStep(direction, stores, Some(c), limit);
      FinishedStep(direction, stores, Some(c), limit);
      if page.nextCursor.Some? {
        var next := page.nextCursor.value;
        TimesAppend(d, page.items, ItemsOf(WalkOver(direction, stores[1..], Some(next), limit)));
        if d in page.items {
          NotReturned(direction, stores[1..], next, limit, d);
        } else {
          StaysAhead(direction, c, next, d);
          ReturnedOnce(direction, stores[1..], next, limit, d);
        }
      } else {
        assert page.items + [] == page.items;
      }
    }
  }

  /** Whether the first page ends, with more to come, before a document and in another type bracket than it. */
  predicate CutOff(direction: Direction, docs: seq<Doc>, limit: nat, d: Doc)
    requires limit > 0
  {
    var listing := Sort(direction, docs);
    && |listing| > limit
    && Before(direction, listing[limit - 1], d)
    && Bracket(listing[limit - 1].value) != Bracket(d.value)
  }

  /** While other documents come, go and move between the requests, a document that stays as it is is never
      returned twice; and a walk that ends has returned it exactly once, unless the first request found the first
      page ending before it in another type bracket, in which case it is never returned. */
  lemma StableDocumentReturnedOnce(direction: Direction, stores: seq<seq<Doc>>, limit: nat, d: Doc)
    requires limit > 0 && forall s <- stores :: DistinctIds(s) && d in s
    ensures var pages := WalkOver(direction, stores, None, limit);
            && Times(d, ItemsOf(pages)) <= 1
            && (Finished(pages) ==> (Times(d, ItemsOf(pages)) == 1 <==> !CutOff(direction, stores[0], limit, d)))
  {
    if |stores| == 0 {
      NoPages(direction, stores, None, limit);
    } else {
      assert stores[0] in stores;
      FirstPage(direction, stores[0], limit);
      hide PageOf, WalkOver, Before, Bracket, DistinctIds, ItemsOf, Times, Finished, Sort;
      var page := PageOf(direction, stores[0], None, limit);
      PageAndDocument(direction, stores[0], None, limit, d);
      OverStep(direction, stores, None, limit);
      FinishedStep(direction, stores, None, limit);
      if page.nextCursor.Some? {
        var next := page.nextCursor.value;
        TimesAppend(d, page.items, ItemsOf(WalkOver(direction, stores[1..], Some(next), limit)));
        PastCursorIff(direction, next, d);
        if PastCursor(direction, d, Some(next)) {
          ReturnedOnce(direction, stores[1..], next, limit, d);
        } else {
          NotReturned(direction, stores[1..], next, limit, d);
        }
      } else {
        assert page.items + [] == page.items;
      }
    }
  }

  /** So in a collection whose documents are of one type, a walk that ends returns every document that stays
      exactly once, whatever else happens between the requests. */
  lemma OneBracketLosesNothing(direction: Direction, stores: seq<seq<Doc>>, limit: nat, d: Doc)
    requires limit > 0 && forall s <- stores :: DistinctIds(s) && d in s
    requires forall s <- stores :: forall e <- s :: Bracket(e.value) == Bracket(d.value)
    requires Finished(WalkOver(direction, stores, None, limit))
    ensures Times(d, ItemsOf(WalkOver(direction, stores, None, limit))) == 1
  {
    StableDocumentReturnedOnce(direction, stores, limit, d);
    if |stores| > 0 {
      assert stores[0] in stores;
      var listing := Sort(direction, stores[0]);
      SortIsInOrder(direction, stores[0]);
      hide Sort, WalkOver, ItemsOf, Times, Bracket;
      if |listing| > limit {
        assert listing[limit - 1] in multiset(listing);
        assert listing[limit - 1] in stores[0];
      }
    } else {
      NoPages(direction, stores, None, limit);
    }
  }
}
