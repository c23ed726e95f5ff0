/** The ticket list, page by page: newest first, each page going on after the last ticket of the one
    before.
 */
module TicketPages {
  import opened Kernel
  import opened TicketDomain
  import opened Tables
  import opened Quotients

  /** What the list is ordered by. */
  datatype Key = Key(createdAt: Time, id: Id)

  /** Newest first; ids break ties. */
  predicate Before(a: Key, b: Key) {
    a.createdAt > b.createdAt || (a.createdAt == b.createdAt && a.id > b.id)
  }

  datatype TicketFilter = TicketFilter(status: Option<Status>, assigneeId: Option<Id>, requesterId: Option<Id>)

  predicate Accepts(f: TicketFilter, row: TicketRow) {
    && (f.status.Some? ==> row.status == f.status.value)
    && (f.assigneeId.Some? ==> row.assigneeId == f.assigneeId)
    && (f.requesterId.Some? ==> row.requesterId == f.requesterId.value)
  }

  ghost function KeyOf(tickets: map<Id, TicketRow>, id: Id): Key
    requires id in tickets
  {
    Key(tickets[id].createdAt, id)
  }

  ghost function Matching(tickets: map<Id, TicketRow>, tenantId: Id, f: TicketFilter): set<Key> {
    set id | id in tickets && tickets[id].tenantId == tenantId && Accepts(f, tickets[id]) :: KeyOf(tickets, id)
  }

  // ---------------------------------------------------------------- the order

  ghost predicate Sorted(list: seq<Key>) {
    forall i, j :: 0 <= i < j < |list| ==> Before(list[i], list[j])
  }

  ghost function Members(list: seq<Key>): set<Key> {
    set k | k in list
  }

  lemma FirstExists(keys: set<Key>) returns (first: Key)
    requires keys != {}
    ensures IsFirst(keys, first)
  {
    first :| first in keys;
    var rest := keys - {first};
    while rest != {}
      invariant rest <= keys && first in keys
      invariant forall k :: k in keys && k !in rest ==> k == first || Before(first, k)
      decreases rest
    {
      var k :| k in rest;
      rest := rest - {k};
      if Before(k, first) { first := k; }
    }
  }

  ghost predicate IsFirst(keys: set<Key>, first: Key) {
    first in keys && forall k :: k in keys ==> k == first || Before(first, k)
  }

  ghost function First(keys: set<Key>): (first: Key)
    requires keys != {}
    ensures IsFirst(keys, first)
  {
    assert exists first :: IsFirst(keys, first) by { var first := FirstExists(keys); }
    var first :| IsFirst(keys, first);
    first
  }

  lemma Prepended(first: Key, rest: seq<Key>)
    requires Sorted(rest) && forall k :: k in Members(rest) ==> Before(first, k)
    ensures Sorted([first] + rest) && Members([first] + rest) == {first} + Members(rest)
  {
  }

  lemma Concatenated(a: seq<Key>, b: seq<Key>)
    requires Sorted(a) && Sorted(b) && forall x, y :: x in a && y in b ==> Before(x, y)
    ensures Sorted(a + b)
  {
  }

  /** The keys in order. */
  ghost function Listing(keys: set<Key>): (list: seq<Key>)
    ensures Sorted(list) && Members(list) == keys && |list| == |keys|
  {
    if keys == {} then []
    else
      var first := First(keys);
      var rest := Listing(keys - {first});
      Prepended(first, rest);
      [first] + rest
  }

  lemma SameHead(a: seq<Key>, b: seq<Key>)
    requires Sorted(a) && Sorted(b) && a != [] && b != [] && Members(a) == Members(b)
    ensures a[0] == b[0]
  {
    assert a[0] in Members(a) && b[0] in Members(b);
    var i :| 0 <= i < |b| && b[i] == a[0];
    var j :| 0 <= j < |a| && a[j] == b[0];
  }

  /** There is one way to sort. */
  lemma {:induction false} SortedIsUnique(a: seq<Key>, b: seq<Key>)
    requires Sorted(a) && Sorted(b) && Members(a) == Members(b)
    ensures a == b
  {
    assert a != [] ==> a[0] in Members(a);
    assert b != [] ==> b[0] in Members(b);
    if a != [] {
      SameHead(a, b);
      TailMembers(a);
      TailMembers(b);
      SortedIsUnique(a[1..], b[1..]);
      assert a == [a[0]] + a[1..] && b == [b[0]] + b[1..];
    }
  }

  lemma TailMembers(a: seq<Key>)
    requires Sorted(a) && a != []
    ensures Sorted(a[1..]) && Members(a[1..]) == Members(a) - {a[0]}
  {
  }

  // ------------------------------------------------------------------ a page

  const TICKETS_PAGE_SIZE_MAX: nat := 100

  /** However silly the limit asked for, a page has room for 1 to 100 tickets. */
  function Take(limit: int): (take: nat)
    ensures 1 <= take <= TICKETS_PAGE_SIZE_MAX
    ensures take == if limit < 1 then 1 else if limit > 100 then 100 else limit
  {
    var atLeast := if limit > 1 then limit else 1;
    if atLeast < TICKETS_PAGE_SIZE_MAX then atLeast else TICKETS_PAGE_SIZE_MAX
  }

  function FirstOf(list: seq<Key>, take: nat): seq<Key> {
    if |list| <= take then list else list[..take]
  }

  ghost function After(keys: set<Key>, cursor: Key): set<Key> {
    set k | k in keys && Before(cursor, k)
  }

  ghost function From(keys: set<Key>, cursor: Key): set<Key> {
    set k | k in keys && (k == cursor || Before(cursor, k))
  }

  /** `findMany` with a cursor: the cursor's row fixes a place in the order, whether or not it passes the
      filter itself; the rows that do, from that place on, are listed and the first of them skipped. */
  ghost function PageFrom(matching: set<Key>, cursor: Option<Key>, take: nat): seq<Key> {
    match cursor
    case None => FirstOf(Listing(matching), take)
    case Some(c) =>
      var list := Listing(From(matching, c));
      if |list| == 0 then [] else FirstOf(list[1..], take)
  }

  datatype TicketPage = TicketPage(items: seq<Key>, nextCursor: Option<Id>)

  /** `TicketReadModel.list`. A cursor that is no stored ticket of the tenant selects nothing. */
  ghost function List(tickets: map<Id, TicketRow>, tenantId: Id, f: TicketFilter, limit: int, cursor: Option<Id>): TicketPage {
    var take := Take(limit);
    var matching := Matching(tickets, tenantId, f);
    var items :=
      if cursor.None? then PageFrom(matching, None, take)
      else if FindTicket(tickets, tenantId, cursor.value).None? then []
      else PageFrom(matching, Some(KeyOf(tickets, cursor.value)), take);
    TicketPage(items, if |items| == take then Some(items[|items| - 1].id) else None)
  }

  // ------------------------------------------------------- what a page gives

  lemma FromWithMember(matching: set<Key>, cursor: Key)
    requires cursor in matching
    ensures Listing(From(matching, cursor)) == [cursor] + Listing(After(matching, cursor))
  {
    var rest := Listing(After(matching, cursor));
    Prepended(cursor, rest);
    assert {cursor} + After(matching, cursor) == From(matching, cursor);
    SortedIsUnique(Listing(From(matching, cursor)), [cursor] + rest);
  }

  /** A page is what comes right after the cursor exactly when the cursor's ticket still passes the filter
      or nothing that passes it is left. Otherwise the ticket that comes first is passed over. */
  lemma PageIsExactIff(matching: set<Key>, cursor: Key, take: nat)
    requires take > 0
    ensures PageFrom(matching, Some(cursor), take) == FirstOf(Listing(After(matching, cursor)), take)
            <==> cursor in matching || After(matching, cursor) == {}
  {
    if cursor in matching {
      FromWithMember(matching, cursor);
    } else {
      assert From(matching, cursor) == After(matching, cursor);
      var list := Listing(After(matching, cursor));
      if |list| == 1 {
        assert FirstOf(list[1..], take) == [];
      } else if |list| > 1 {
        assert Before(list[0], list[1]);
        assert FirstOf(list[1..], take)[0] == list[1] && FirstOf(list, take)[0] == list[0];
      }
    }
  }

  /** Whatever happened to the cursor, a page is in order and comes after it. */
  lemma PageComesAfter(matching: set<Key>, cursor: Option<Key>, take: nat)
    ensures var page := PageFrom(matching, cursor, take);
            && |page| <= take
            && Sorted(page)
            && Members(page) <= matching
            && (cursor.Some? ==> forall k :: k in page ==> Before(cursor.value, k))
  {
    match cursor
    case None => FirstOfSorted(Listing(matching), take, matching);
    case Some(c) =>
      var list := Listing(From(matching, c));
      if |list| > 0 {
        RestComesAfter(matching, c, list);
        FirstOfSorted(list[1..], take, matching);
      }
  }

  lemma FirstOfSorted(list: seq<Key>, take: nat, keys: set<Key>)
    requires Sorted(list) && Members(list) <= keys
    ensures var page := FirstOf(list, take);
            |page| <= take && Sorted(page) && Members(page) <= keys && forall k :: k in page ==> k in list
  {
  }

  /** All but the first of what comes from a place on comes after it. */
  lemma RestComesAfter(matching: set<Key>, cursor: Key, list: seq<Key>)
    requires Sorted(list) && Members(list) == From(matching, cursor) && |list| > 0
    ensures Sorted(list[1..]) && Members(list[1..]) <= matching
    ensures forall k :: k in list[1..] ==> Before(cursor, k)
  {
    TailMembers(list);
    assert list[0] in Members(list);
    forall k | k in list[1..] ensures Before(cursor, k) {
      assert k in Members(list[1..]);
      var i :| 0 <= i < |list| - 1 && list[1..][i] == k;
      assert Before(list[0], list[i + 1]);
    }
  }

  /** What a page with a good cursor leaves out comes after everything in it, and only a full page
      leaves anything out. */
  lemma PageLeavesLater(matching: set<Key>, cursor: Option<Key>, take: nat, k: Key)
    requires take > 0 && k in matching
    requires cursor.Some? ==> cursor.value in matching && Before(cursor.value, k)
    ensures var page := PageFrom(matching, cursor, take);
            k in page || (|page| == take && forall x :: x in page ==> Before(x, k))
  {
    var list := if cursor.None? then Listing(matching) else Listing(After(matching, cursor.value));
    if cursor.Some? { PageIsExactIff(matching, cursor.value, take); }
    assert k in Members(list);
    var i :| 0 <= i < |list| && list[i] == k;
    if i < take {
      assert FirstOf(list, take)[i] == k;
    }
  }

  // ------------------------------------------------------------------ a walk

  /** Where the pages so far end. */
  ghost function EndOf(pages: seq<seq<Key>>): Option<Key> {
    if |pages| == 0 || pages[|pages| - 1] == [] then None
    else
      var page := pages[|pages| - 1];
      Some(page[|page| - 1])
  }

  /** Each page was read from the tickets that matched by then, after the last ticket of the page before,
      which was full. */
  ghost predicate IsWalk(tables: seq<set<Key>>, pages: seq<seq<Key>>, take: nat) {
    && |pages| == |tables|
    && (|pages| > 0 ==>
          var n := |pages| - 1;
          && IsWalk(tables[..n], pages[..n], take)
          && (n > 0 ==> |pages[n - 1]| == take)
          && pages[n] == PageFrom(tables[n], EndOf(pages[..n]), take))
  }

  ghost function Gathered(pages: seq<seq<Key>>): seq<Key> {
    if |pages| == 0 then [] else Gathered(pages[..|pages| - 1]) + pages[|pages| - 1]
  }

  /** Everything is at the end of what was gathered, or before it. */
  ghost predicate UpTo(list: seq<Key>, end: Option<Key>) {
    end.Some? ==> forall k :: k in list ==> k == end.value || Before(k, end.value)
  }

  lemma Follow(list: seq<Key>, end: Key, page: seq<Key>)
    requires UpTo(list, Some(end)) && forall k :: k in page ==> Before(end, k)
    ensures forall a, b :: a in list && b in page ==> Before(a, b)
  {
  }

  lemma UpToLast(list: seq<Key>, page: seq<Key>)
    requires Sorted(list + page) && page != []
    ensures UpTo(list + page, Some(page[|page| - 1]))
  {
    var all := list + page;
    var last := |all| - 1;
    assert all[last] == page[|page| - 1];
    forall k | k in all ensures k == all[last] || Before(k, all[last]) {
      var i :| 0 <= i < |all| && all[i] == k;
      assert i < last ==> Before(all[i], all[last]);
    }
  }

  /** Everything gathered so far is in order, up to the cursor; so nothing is ever listed twice, whatever
      changes between calls. */
  lemma {:induction false} NothingTwice(tables: seq<set<Key>>, pages: seq<seq<Key>>, take: nat)
    requires take > 0 && IsWalk(tables, pages, take)
    ensures Sorted(Gathered(pages)) && UpTo(Gathered(pages), EndOf(pages))
  {
    if |pages| > 0 {
      var n := |pages| - 1;
      var page, before := pages[n], Gathered(pages[..n]);
      var end := EndOf(pages[..n]);
      NothingTwice(tables[..n], pages[..n], take);
      PageComesAfter(tables[n], end, take);
      if n > 0 {
        assert pages[..n][n - 1] == pages[n - 1];
        Follow(before, end.value, page);
      }
      Concatenated(before, page);
      if page != [] { UpToLast(before, page); }
    }
  }

  /** The cursor of every call still passes the filter when it is used. */
  ghost predicate CursorsHold(tables: seq<set<Key>>, pages: seq<seq<Key>>)
    requires |pages| == |tables|
  {
    |pages| > 0 ==>
      var n := |pages| - 1;
      CursorsHold(tables[..n], pages[..n]) && (EndOf(pages[..n]).Some? ==> EndOf(pages[..n]).value in tables[n])
  }

  lemma {:induction false} SteadyIsGathered(tables: seq<set<Key>>, pages: seq<seq<Key>>, take: nat, k: Key)
    requires take > 0 && IsWalk(tables, pages, take) && CursorsHold(tables, pages)
    requires forall i :: 0 <= i < |tables| ==> k in tables[i]
    ensures k in Gathered(pages) || |pages| == 0 || (|pages[|pages| - 1]| == take && Before(EndOf(pages).value, k))
  {
    if |pages| > 0 {
      var n := |pages| - 1;
      SteadyIsGathered(tables[..n], pages[..n], take, k);
      if k !in Gathered(pages[..n]) {
        assert n > 0 ==> pages[..n][n - 1] == pages[n - 1];
        PageLeavesLater(tables[n], EndOf(pages[..n]), take, k);
      }
    }
  }

  predicate IsAt(list: seq<Key>, i: int, k: Key) {
    0 <= i < |list| && list[i] == k
  }

  ghost predicate ListedOnce(list: seq<Key>, k: Key) {
    exists i :: IsAt(list, i, k) && forall j :: IsAt(list, j, k) ==> j == i
  }

  /** In a list in order, whatever is there is there once. */
  lemma OnceIfSorted(list: seq<Key>, k: Key)
    requires Sorted(list) && k in list
    ensures ListedOnce(list, k)
  {
    var i :| 0 <= i < |list| && list[i] == k;
    assert IsAt(list, i, k);
    NoRepeats(list);
  }

  lemma NoRepeats(list: seq<Key>)
    requires Sorted(list)
    ensures forall i, j :: 0 <= i < j < |list| ==> list[i] != list[j]
  {
  }

  /** A walk that ended listed every ticket that passed the filter all along, exactly once, whatever else
      was created or changed meanwhile, provided every cursor still passed the filter when it was used. */
  lemma SteadyExactlyOnce(tables: seq<set<Key>>, pages: seq<seq<Key>>, take: nat, k: Key)
    requires take > 0 && IsWalk(tables, pages, take) && CursorsHold(tables, pages)
    requires |pages| > 0 && |pages[|pages| - 1]| < take
    requires forall i :: 0 <= i < |tables| ==> k in tables[i]
    ensures ListedOnce(Gathered(pages), k)
  {
    NothingTwice(tables, pages, take);
    SteadyIsGathered(tables, pages, take, k);
    OnceIfSorted(Gathered(pages), k);
  }

  /** A walk gathers nothing but what matched at some call. */
  lemma {:induction false} GatheredWithin(tables: seq<set<Key>>, pages: seq<seq<Key>>, take: nat, all: set<Key>)
    requires IsWalk(tables, pages, take) && forall i :: 0 <= i < |tables| ==> tables[i] <= all
    ensures forall k :: k in Gathered(pages) ==> k in all
  {
    if |pages| > 0 {
      var n := |pages| - 1;
      GatheredWithin(tables[..n], pages[..n], take, all);
      PageComesAfter(tables[n], EndOf(pages[..n]), take);
      assert forall k :: k in pages[n] ==> k in Members(pages[n]);
    }
  }

  // ------------------------------------------------- a walk over a fixed table

  /** Nothing changes between calls. */
  ghost predicate Still(tables: seq<set<Key>>, matching: set<Key>) {
    forall i :: 0 <= i < |tables| ==> tables[i] == matching
  }

  lemma {:induction false} GathersMatching(tables: seq<set<Key>>, pages: seq<seq<Key>>, take: nat, matching: set<Key>)
    requires take > 0 && IsWalk(tables, pages, take) && Still(tables, matching)
    ensures Members(Gathered(pages)) <= matching && CursorsHold(tables, pages)
    ensures EndOf(pages).Some? ==> EndOf(pages).value in matching
    ensures |pages| > 0 ==> |Gathered(pages)| == (|pages| - 1) * take + |pages[|pages| - 1]|
  {
    if |pages| > 0 {
      var n := |pages| - 1;
      GathersMatching(tables[..n], pages[..n], take, matching);
      PageComesAfter(tables[n], EndOf(pages[..n]), take);
      assert forall k :: k in pages[n] ==> k in Members(pages[n]);
      assert n > 0 ==> pages[..n][n - 1] == pages[n - 1];
      OnceMore(n, take);
    }
  }

  lemma OnceMore(n: int, take: int)
    ensures n * take == (n - 1) * take + take
  {
  }

  /** On a table that does not change, a walk that ended gathered the whole list, in order, in n / take + 1
      calls: when the last ticket fills a page, one more call finds an empty one. */
  lemma FixedWalkIsListing(tables: seq<set<Key>>, pages: seq<seq<Key>>, take: nat, matching: set<Key>)
    requires take > 0 && IsWalk(tables, pages, take) && Still(tables, matching)
    requires |pages| > 0 && |pages[|pages| - 1]| < take
    ensures Gathered(pages) == Listing(matching)
    ensures |pages| == |matching| / take + 1
  {
    AllGathered(tables, pages, take, matching);
    SortedIsUnique(Gathered(pages), Listing(matching));
    QuotientIs(|Gathered(pages)|, |pages| - 1, |pages[|pages| - 1]|, take);
  }

  lemma AllGathered(tables: seq<set<Key>>, pages: seq<seq<Key>>, take: nat, matching: set<Key>)
    requires take > 0 && IsWalk(tables, pages, take) && Still(tables, matching)
    requires |pages| > 0 && |pages[|pages| - 1]| < take
    ensures Sorted(Gathered(pages)) && Members(Gathered(pages)) == matching
    ensures |Gathered(pages)| == (|pages| - 1) * take + |pages[|pages| - 1]|
  {
    NothingTwice(tables, pages, take);
    GathersMatching(tables, pages, take, matching);
    forall k | k in matching ensures k in Members(Gathered(pages)) {
      SteadyIsGathered(tables, pages, take, k);
    }
  }

  lemma {:induction false} Smaller(a: set<Key>, b: set<Key>)
    requires a <= b
    ensures |a| <= |b|
  {
    if a != {} {
      var k :| k in a;
      Smaller(a - {k}, b - {k});
    }
  }

  lemma SizeOfSorted(list: seq<Key>)
    requires Sorted(list)
    ensures |Members(list)| == |list|
  {
    SortedIsUnique(list, Listing(Members(list)));
  }

  lemma GatheredFits(tables: seq<set<Key>>, pages: seq<seq<Key>>, take: nat, matching: set<Key>)
    requires take > 0 && IsWalk(tables, pages, take) && Still(tables, matching)
    ensures |Gathered(pages)| <= |matching|
  {
    NothingTwice(tables, pages, take);
    GathersMatching(tables, pages, take, matching);
    SizeOfSorted(Gathered(pages));
    Smaller(Members(Gathered(pages)), matching);
  }

  /** One more call. */
  lemma OneMoreCall(tables: seq<set<Key>>, pages: seq<seq<Key>>, take: nat, matching: set<Key>) returns (page: seq<Key>)
    requires take > 0 && IsWalk(tables, pages, take) && Still(tables, matching)
    requires |pages| > 0 ==> |pages[|pages| - 1]| == take
    ensures IsWalk(tables + [matching], pages + [page], take) && Still(tables + [matching], matching)
    ensures |page| <= take && Gathered(pages + [page]) == Gathered(pages) + page
  {
    page := PageFrom(matching, EndOf(pages), take);
    assert (pages + [page])[..|pages|] == pages && (tables + [matching])[..|pages|] == tables;
    PageComesAfter(matching, EndOf(pages), take);
  }

  lemma PageFits(tables: seq<set<Key>>, pages: seq<seq<Key>>, take: nat)
    requires take > 0 && IsWalk(tables, pages, take) && |pages| > 0
    ensures |pages[|pages| - 1]| <= take
  {
  }

  lemma CallsNeeded(n: nat, calls: nat, last: nat, take: nat)
    requires 0 < take && 0 < calls && last <= take && (calls - 1) * take + last <= n
    requires last < take ==> (calls - 1) * take + last == n
    ensures calls <= n / take + 1
    ensures last < take <==> calls == n / take + 1
  {
    if last < take {
      QuotientIs(n, calls - 1, last, take);
    } else {
      assert calls * take == (calls - 1) * take + take;
      AtMostQuotient(n, calls, take);
    }
  }

  lemma PageSizes(tables: seq<set<Key>>, pages: seq<seq<Key>>, take: nat, matching: set<Key>) returns (n: nat, calls: nat, last: nat)
    requires take > 0 && IsWalk(tables, pages, take) && Still(tables, matching) && |pages| > 0
    ensures n == |matching| && calls == |pages| && last == |pages[|pages| - 1]| <= take
    ensures (calls - 1) * take + last <= n
    ensures last < take ==> (calls - 1) * take + last == n
  {
    n, calls, last := |matching|, |pages|, |pages[|pages| - 1]|;
    GatheredFits(tables, pages, take, matching);
    GathersMatching(tables, pages, take, matching);
    PageFits(tables, pages, take);
    if last < take { FixedWalkIsListing(tables, pages, take, matching); }
  }

  /** And it does end: a walk over a table that does not change can be gone on with until its last page is
      not full, which happens at call n / take + 1, neither before nor after. */
  lemma EndsOnTime(tables: seq<set<Key>>, pages: seq<seq<Key>>, take: nat, matching: set<Key>)
    requires take > 0 && IsWalk(tables, pages, take) && Still(tables, matching) && |pages| > 0
    ensures |pages| <= |matching| / take + 1
    ensures |pages[|pages| - 1]| < take <==> |pages| == |matching| / take + 1
  {
    var n, calls, last := PageSizes(tables, pages, take, matching);
    CallsNeeded(n, calls, last, take);
  }
}
