/** The list as a client walks it while the system runs. */
module TicketListing {
  import opened Kernel
  import opened TicketDomain
  import opened Tables
  import opened Machine
  import opened Changes
  import opened TicketPages

  /** Tickets stay, and with them whom they belong to, who asked for what, and when. */
  predicate KeepsIdentity(before: map<Id, TicketRow>, after: map<Id, TicketRow>) {
    forall id :: id in before ==>
                   && id in after
                   && after[id].tenantId == before[id].tenantId
                   && after[id].requesterId == before[id].requesterId
                   && after[id].createdAt == before[id].createdAt
                   && after[id].number == before[id].number
                   && after[id].subject == before[id].subject
                   && after[id].description == before[id].description
                   && after[id].priority == before[id].priority
  }

  lemma ChangeKeepsIdentity(t: Tables, ch: Change)
    requires Sound(t, ch)
    ensures KeepsIdentity(t.tickets, Applied(t, ch).tickets)
  {
  }

  lemma {:induction false} RunKeepsIdentity(t: Tables, commands: seq<Command>)
    requires EnabledRun(t, commands)
    ensures KeepsIdentity(t.tickets, Run(t, commands).tickets)
  {
    if |commands| > 0 {
      var init, c := commands[..|commands| - 1], commands[|commands| - 1];
      RunKeepsIdentity(t, init);
      Classify(Run(t, init), c);
      ChangeKeepsIdentity(Run(t, init), ChangeOf(Run(t, init), c));
    }
  }

  /** The ticket tables a walk sees, one per call: what passed the filter goes on passing it. */
  ghost predicate Growing(shots: seq<map<Id, TicketRow>>, tenantId: Id, f: TicketFilter) {
    |shots| > 1 ==> Growing(shots[..|shots| - 1], tenantId, f) && Matching(shots[|shots| - 2], tenantId, f) <= Matching(shots[|shots| - 1], tenantId, f)
  }

  /** A client that follows `nextCursor`: each page is read from the table of its moment. */
  ghost predicate IsListing(shots: seq<map<Id, TicketRow>>, pages: seq<TicketPage>, tenantId: Id, f: TicketFilter, limit: int) {
    && |pages| == |shots|
    && (|pages| > 0 ==>
          var n := |pages| - 1;
          && IsListing(shots[..n], pages[..n], tenantId, f, limit)
          && (n > 0 ==> pages[n - 1].nextCursor.Some?)
          && pages[n] == List(shots[n], tenantId, f, limit, CursorFor(pages[..n])))
  }

  /** The cursor to ask the next page with. */
  function CursorFor(pages: seq<TicketPage>): Option<Id> {
    if |pages| == 0 then None else pages[|pages| - 1].nextCursor
  }

  lemma LastListed(shots: seq<map<Id, TicketRow>>, pages: seq<TicketPage>, tenantId: Id, f: TicketFilter, limit: int)
    requires IsListing(shots, pages, tenantId, f, limit) && |pages| > 0
    ensures pages[|pages| - 1] == List(shots[|pages| - 1], tenantId, f, limit, CursorFor(pages[..|pages| - 1]))
  {
  }

  lemma EndOfItems(pages: seq<TicketPage>)
    requires |pages| > 0 && pages[|pages| - 1].items != []
    ensures var items := pages[|pages| - 1].items;
            EndOf(ItemsOf(pages)) == Some(items[|items| - 1])
  {
  }

  ghost function Shelves(shots: seq<map<Id, TicketRow>>, tenantId: Id, f: TicketFilter): (shelves: seq<set<Key>>)
    ensures |shelves| == |shots|
    ensures forall i :: 0 <= i < |shots| ==> shelves[i] == Matching(shots[i], tenantId, f)
  {
    if |shots| == 0 then [] else Shelves(shots[..|shots| - 1], tenantId, f) + [Matching(shots[|shots| - 1], tenantId, f)]
  }

  ghost function ItemsOf(pages: seq<TicketPage>): (items: seq<seq<Key>>)
    ensures |items| == |pages|
    ensures |pages| > 0 ==> items[|pages| - 1] == pages[|pages| - 1].items
  {
    if |pages| == 0 then [] else ItemsOf(pages[..|pages| - 1]) + [pages[|pages| - 1].items]
  }

  /** A filter on what a ticket never changes. */
  predicate IsStable(f: TicketFilter) {
    f.status.None? && f.assigneeId.None?
  }

  lemma StaysMatching(before: map<Id, TicketRow>, after: map<Id, TicketRow>, tenantId: Id, f: TicketFilter, k: Key)
    requires KeepsIdentity(before, after) && IsStable(f) && k in Matching(before, tenantId, f)
    ensures k in Matching(after, tenantId, f)
  {
  }

  lemma IsStoredKey(tickets: map<Id, TicketRow>, tenantId: Id, f: TicketFilter, k: Key)
    requires k in Matching(tickets, tenantId, f)
    ensures FindTicket(tickets, tenantId, k.id).Some? && KeyOf(tickets, k.id) == k
  {
    var id :| id in tickets && tickets[id].tenantId == tenantId && Accepts(f, tickets[id]) && KeyOf(tickets, id) == k;
  }

  lemma PageIsMatching(tickets: map<Id, TicketRow>, tenantId: Id, f: TicketFilter, limit: int, cursor: Option<Id>)
    ensures forall k :: k in List(tickets, tenantId, f, limit, cursor).items ==> k in Matching(tickets, tenantId, f)
  {
    var found := if cursor.Some? && FindTicket(tickets, tenantId, cursor.value).Some? then Some(KeyOf(tickets, cursor.value)) else None;
    PageComesAfter(Matching(tickets, tenantId, f), found, Take(limit));
    var page := PageFrom(Matching(tickets, tenantId, f), found, Take(limit));
    assert forall k :: k in page ==> k in Members(page);
  }

  /** A stored ticket of this tenant, with this date, and with the status, the assignee and the requester
      that were asked for, where they were. */
  predicate IsAsAsked(tickets: map<Id, TicketRow>, tenantId: Id, f: TicketFilter, k: Key) {
    && k.id in tickets && tickets[k.id].tenantId == tenantId && tickets[k.id].createdAt == k.createdAt
    && (f.status.Some? ==> tickets[k.id].status == f.status.value)
    && (f.assigneeId.Some? ==> tickets[k.id].assigneeId == Some(f.assigneeId.value))
    && (f.requesterId.Some? ==> tickets[k.id].requesterId == f.requesterId.value)
  }

  /** Newest first; ids, which differ, break ties. */
  predicate IsNewestFirst(list: seq<Key>) {
    forall i, j :: 0 <= i < j < |list| ==> list[i].createdAt >= list[j].createdAt && (list[i].createdAt == list[j].createdAt ==> list[i].id > list[j].id)
  }

  lemma MatchingIsAsAsked(tickets: map<Id, TicketRow>, tenantId: Id, f: TicketFilter, k: Key)
    ensures k in Matching(tickets, tenantId, f) <==> IsAsAsked(tickets, tenantId, f, k)
  {
    if k in Matching(tickets, tenantId, f) {
      IsStoredKey(tickets, tenantId, f, k);
    }
    if IsAsAsked(tickets, tenantId, f, k) {
      assert KeyOf(tickets, k.id) == k;
    }
  }

  lemma AllAsAsked(tickets: map<Id, TicketRow>, tenantId: Id, f: TicketFilter)
    ensures forall k :: k in Matching(tickets, tenantId, f) <==> IsAsAsked(tickets, tenantId, f, k)
  {
    forall k ensures k in Matching(tickets, tenantId, f) <==> IsAsAsked(tickets, tenantId, f, k) {
      MatchingIsAsAsked(tickets, tenantId, f, k);
    }
  }

  lemma SortedIsNewestFirst(list: seq<Key>)
    ensures Sorted(list) <==> IsNewestFirst(list)
  {
  }

  /** One call lists tickets as they were asked for, newest first, at most a hundred. */
  lemma PageIsAsAsked(tickets: map<Id, TicketRow>, tenantId: Id, f: TicketFilter, limit: int, cursor: Option<Id>)
    ensures var items := List(tickets, tenantId, f, limit, cursor).items;
            |items| <= 100 && IsNewestFirst(items) && forall k :: k in items ==> IsAsAsked(tickets, tenantId, f, k)
  {
    var found := if cursor.Some? && FindTicket(tickets, tenantId, cursor.value).Some? then Some(KeyOf(tickets, cursor.value)) else None;
    PageComesAfter(Matching(tickets, tenantId, f), found, Take(limit));
    PageIsMatching(tickets, tenantId, f, limit, cursor);
    AllAsAsked(tickets, tenantId, f);
    SortedIsNewestFirst(List(tickets, tenantId, f, limit, cursor).items);
  }

  /** The next page, read from a later table, goes on from the last ticket of this one. */
  lemma NextPage(was: map<Id, TicketRow>, now: map<Id, TicketRow>, tenantId: Id, f: TicketFilter, limit: int, cursor: Option<Id>)
    requires Matching(was, tenantId, f) <= Matching(now, tenantId, f)
    requires List(was, tenantId, f, limit, cursor).nextCursor.Some?
    ensures var page := List(was, tenantId, f, limit, cursor);
            && |page.items| == Take(limit)
            && var end := page.items[|page.items| - 1];
               && end in Matching(now, tenantId, f)
               && List(now, tenantId, f, limit, page.nextCursor).items == PageFrom(Matching(now, tenantId, f), Some(end), Take(limit))
  {
    var page := List(was, tenantId, f, limit, cursor);
    PageIsMatching(was, tenantId, f, limit, cursor);
    var end := page.items[|page.items| - 1];
    assert end in page.items;
    IsStoredKey(now, tenantId, f, end);
  }

  /** The last page of a listing goes on from the page before, whose last ticket still passes the filter. */
  lemma LastPageGoesOn(shots: seq<map<Id, TicketRow>>, pages: seq<TicketPage>, tenantId: Id, f: TicketFilter, limit: int)
    requires Growing(shots, tenantId, f) && IsListing(shots, pages, tenantId, f, limit) && |pages| > 0
    ensures var n := |pages| - 1;
            var end := EndOf(ItemsOf(pages[..n]));
            && (n > 0 ==> |pages[n - 1].items| == Take(limit) && end.Some? && end.value in Matching(shots[n], tenantId, f))
            && pages[n].items == PageFrom(Matching(shots[n], tenantId, f), end, Take(limit))
  {
    var n := |pages| - 1;
    LastListed(shots, pages, tenantId, f, limit);
    if n > 0 {
      var before := pages[..n];
      LastListed(shots[..n], before, tenantId, f, limit);
      assert shots[..n][n - 1] == shots[n - 1] && before[n - 1] == pages[n - 1];
      NextPage(shots[n - 1], shots[n], tenantId, f, limit, CursorFor(before[..n - 1]));
      EndOfItems(before);
    }
  }

  lemma WalkOnePageMore(tables: seq<set<Key>>, items: seq<seq<Key>>, take: nat, table: set<Key>, page: seq<Key>)
    requires IsWalk(tables, items, take) && CursorsHold(tables, items)
    requires |items| > 0 ==> |items[|items| - 1]| == take && EndOf(items).Some? && EndOf(items).value in table
    requires page == PageFrom(table, EndOf(items), take)
    ensures IsWalk(tables + [table], items + [page], take) && CursorsHold(tables + [table], items + [page])
  {
    assert (tables + [table])[..|tables|] == tables && (items + [page])[..|items|] == items;
  }

  /** Then what a client gathers is a walk whose cursors never leave the filter. */
  lemma {:induction false} ListingIsWalk(shots: seq<map<Id, TicketRow>>, pages: seq<TicketPage>, tenantId: Id, f: TicketFilter, limit: int)
    requires Growing(shots, tenantId, f) && IsListing(shots, pages, tenantId, f, limit)
    ensures IsWalk(Shelves(shots, tenantId, f), ItemsOf(pages), Take(limit))
    ensures CursorsHold(Shelves(shots, tenantId, f), ItemsOf(pages))
  {
    if |pages| > 0 {
      var n := |pages| - 1;
      ListingIsWalk(shots[..n], pages[..n], tenantId, f, limit);
      LastPageGoesOn(shots, pages, tenantId, f, limit);
      WalkOnePageMore(Shelves(shots[..n], tenantId, f), ItemsOf(pages[..n]), Take(limit), Matching(shots[n], tenantId, f), pages[n].items);
    }
  }

  lemma {:induction false} StaysOnShelves(shots: seq<map<Id, TicketRow>>, tenantId: Id, f: TicketFilter, k: Key)
    requires Growing(shots, tenantId, f) && |shots| > 0 && k in Matching(shots[0], tenantId, f)
    ensures forall i :: 0 <= i < |shots| ==> k in Matching(shots[i], tenantId, f)
  {
    if |shots| > 1 {
      var n := |shots| - 1;
      StaysOnShelves(shots[..n], tenantId, f, k);
      assert shots[..n][n - 1] == shots[n - 1];
      assert forall i :: 0 <= i < n ==> shots[..n][i] == shots[i];
    }
  }

  // ------------------------------------------------------ while nothing changes

  lemma {:induction false} StillGrows(shots: seq<map<Id, TicketRow>>, tickets: map<Id, TicketRow>, tenantId: Id, f: TicketFilter)
    requires forall i :: 0 <= i < |shots| ==> shots[i] == tickets
    ensures Growing(shots, tenantId, f)
  {
    if |shots| > 1 { StillGrows(shots[..|shots| - 1], tickets, tenantId, f); }
  }

  lemma ListingIsAsAsked(tickets: map<Id, TicketRow>, tenantId: Id, f: TicketFilter)
    ensures IsNewestFirst(Listing(Matching(tickets, tenantId, f)))
    ensures forall k :: k in Listing(Matching(tickets, tenantId, f)) <==> IsAsAsked(tickets, tenantId, f, k)
  {
    AllAsAsked(tickets, tenantId, f);
    var list := Listing(Matching(tickets, tenantId, f));
    assert forall k :: k in list <==> k in Members(list);
    SortedIsNewestFirst(list);
  }

  lemma StillIsListing(shots: seq<map<Id, TicketRow>>, tickets: map<Id, TicketRow>, pages: seq<TicketPage>, tenantId: Id, f: TicketFilter, limit: int)
    requires forall i :: 0 <= i < |shots| ==> shots[i] == tickets
    requires IsListing(shots, pages, tenantId, f, limit) && |pages| > 0 && pages[|pages| - 1].nextCursor.None?
    ensures Gathered(ItemsOf(pages)) == Listing(Matching(tickets, tenantId, f))
    ensures |pages| == |Matching(tickets, tenantId, f)| / Take(limit) + 1
  {
    StillGrows(shots, tickets, tenantId, f);
    ListingIsWalk(shots, pages, tenantId, f, limit);
    PageFits(Shelves(shots, tenantId, f), ItemsOf(pages), Take(limit));
    FixedWalkIsListing(Shelves(shots, tenantId, f), ItemsOf(pages), Take(limit), Matching(tickets, tenantId, f));
  }

  /** Following `nextCursor` to its end over a table that does not change gives exactly the tickets as they
      were asked for, newest first, in n / take + 1 calls, whatever the filter and the limit. */
  lemma WholeListWhenStill(shots: seq<map<Id, TicketRow>>, tickets: map<Id, TicketRow>, pages: seq<TicketPage>, tenantId: Id, f: TicketFilter, limit: int)
    requires forall i :: 0 <= i < |shots| ==> shots[i] == tickets
    requires IsListing(shots, pages, tenantId, f, limit) && |pages| > 0 && pages[|pages| - 1].nextCursor.None?
    ensures Gathered(ItemsOf(pages)) == Listing(Matching(tickets, tenantId, f))
    ensures |pages| == |Matching(tickets, tenantId, f)| / Take(limit) + 1
    ensures IsNewestFirst(Gathered(ItemsOf(pages)))
    ensures forall k :: k in Gathered(ItemsOf(pages)) <==> IsAsAsked(tickets, tenantId, f, k)
  {
    StillIsListing(shots, tickets, pages, tenantId, f, limit);
    ListingIsAsAsked(tickets, tenantId, f);
  }

  // ------------------------------------------------------- while the system runs

  /** The states a walk sees, each some transactions after the one before. */
  ghost predicate InTime(states: seq<Tables>) {
    |states| > 1 ==> InTime(states[..|states| - 1]) && Later(states[|states| - 2], states[|states| - 1])
  }

  ghost function TicketsOf(states: seq<Tables>): (shots: seq<map<Id, TicketRow>>)
    ensures |shots| == |states|
    ensures |states| > 0 ==> shots[0] == states[0].tickets && shots[|shots| - 1] == states[|states| - 1].tickets
  {
    if |states| == 0 then [] else TicketsOf(states[..|states| - 1]) + [states[|states| - 1].tickets]
  }

  lemma LaterKeepsIdentity(before: Tables, after: Tables)
    requires Later(before, after)
    ensures KeepsIdentity(before.tickets, after.tickets)
  {
    var commands :| EnabledRun(before, commands) && after == Run(before, commands);
    RunKeepsIdentity(before, commands);
  }

  lemma {:induction false} TimeGrows(states: seq<Tables>, tenantId: Id, f: TicketFilter)
    requires InTime(states) && IsStable(f)
    ensures Growing(TicketsOf(states), tenantId, f)
  {
    if |states| > 1 {
      var init := states[..|states| - 1];
      var shots := TicketsOf(states);
      TimeGrows(init, tenantId, f);
      assert shots[..|shots| - 1] == TicketsOf(init);
      var was, now := states[|states| - 2], states[|states| - 1];
      LaterKeepsIdentity(was, now);
      forall k | k in Matching(was.tickets, tenantId, f) ensures k in Matching(now.tickets, tenantId, f) {
        StaysMatching(was.tickets, now.tickets, tenantId, f, k);
      }
    }
  }

  lemma {:induction false} ShelvesGrow(shots: seq<map<Id, TicketRow>>, tenantId: Id, f: TicketFilter)
    requires Growing(shots, tenantId, f) && |shots| > 0
    ensures forall i :: 0 <= i < |shots| ==> Matching(shots[i], tenantId, f) <= Matching(shots[|shots| - 1], tenantId, f)
  {
    if |shots| > 1 {
      var n := |shots| - 1;
      ShelvesGrow(shots[..n], tenantId, f);
      assert shots[..n][n - 1] == shots[n - 1];
      assert forall i :: 0 <= i < n ==> shots[..n][i] == shots[i];
    }
  }

  /** Listing a tenant's tickets, or those of one requester, while the system goes on: when the client
      comes to a page without `nextCursor` it has seen every ticket there was at the start exactly once,
      and no ticket twice. */
  lemma WholeListWhileRunning(states: seq<Tables>, pages: seq<TicketPage>, tenantId: Id, f: TicketFilter, limit: int, id: Id)
    requires InTime(states) && IsListing(TicketsOf(states), pages, tenantId, f, limit) && IsStable(f)
    requires |pages| > 0 && pages[|pages| - 1].nextCursor.None?
    requires id in states[0].tickets && IsAsAsked(states[0].tickets, tenantId, f, KeyOf(states[0].tickets, id))
    ensures ListedOnce(Gathered(ItemsOf(pages)), KeyOf(states[0].tickets, id))
    ensures IsNewestFirst(Gathered(ItemsOf(pages)))
    ensures forall k :: k in Gathered(ItemsOf(pages)) ==> IsAsAsked(states[|states| - 1].tickets, tenantId, f, k)
  {
    AllAsAsked(states[0].tickets, tenantId, f);
    AllAsAsked(states[|states| - 1].tickets, tenantId, f);
    TimeGrows(states, tenantId, f);
    var shots := TicketsOf(states);
    var shelves, items, take := Shelves(shots, tenantId, f), ItemsOf(pages), Take(limit);
    var k := KeyOf(states[0].tickets, id);
    assert k in Matching(shots[0], tenantId, f);
    ListingIsWalk(shots, pages, tenantId, f, limit);
    StaysOnShelves(shots, tenantId, f, k);
    PageFits(shelves, items, take);
    SteadyExactlyOnce(shelves, items, take, k);
    NothingTwice(shelves, items, take);
    SortedIsNewestFirst(Gathered(items));
    ShelvesGrow(shots, tenantId, f);
    GatheredWithin(shelves, items, take, Matching(shots[|shots| - 1], tenantId, f));
  }
}
