/** A run in which a client that follows `nextCursor` never sees a ticket that passed its filter all along:
    the last ticket of a page leaves the filter before the next page is read.
 */
module LostTicket {
  import opened Kernel
  import opened TicketDomain
  import opened Tables
  import opened Persistence
  import opened TicketAggregate
  import opened TicketTransactions
  import opened Machine
  import opened TicketPages
  import opened TicketListing
  import CreationLocks

  const OPEN_TICKETS: TicketFilter := TicketFilter(Some(Open), None, None)

  lemma FirstPageOfTwo(tickets: map<Id, TicketRow>, tenantId: Id, f: TicketFilter, newer: Id, older: Id)
    requires tickets.Keys == {newer, older} && tickets[newer].tenantId == tickets[older].tenantId == tenantId
    requires Accepts(f, tickets[newer]) && Accepts(f, tickets[older]) && Before(KeyOf(tickets, newer), KeyOf(tickets, older))
    ensures List(tickets, tenantId, f, 1, None) == TicketPage([KeyOf(tickets, newer)], Some(newer))
  {
    var a, b := KeyOf(tickets, newer), KeyOf(tickets, older);
    assert Matching(tickets, tenantId, f) == {a, b};
    SortedIsUnique(Listing({a, b}), [a, b]);
  }

  lemma NextPageSkips(tickets: map<Id, TicketRow>, tenantId: Id, f: TicketFilter, cursor: Id, older: Id)
    requires tickets.Keys == {cursor, older} && tickets[cursor].tenantId == tickets[older].tenantId == tenantId
    requires !Accepts(f, tickets[cursor]) && Accepts(f, tickets[older]) && Before(KeyOf(tickets, cursor), KeyOf(tickets, older))
    ensures List(tickets, tenantId, f, 1, Some(cursor)) == TicketPage([], None)
  {
    var a, b := KeyOf(tickets, cursor), KeyOf(tickets, older);
    assert Matching(tickets, tenantId, f) == {b};
    assert From({b}, a) == {b};
    SortedIsUnique(Listing({b}), [b]);
  }

  /** What a creation leaves behind. */
  predicate Added(t: Tables, after: Tables, tenantId: Id, k: Id, s: Stamp) {
    && k in after.tickets && after.tickets == t.tickets[k := after.tickets[k]]
    && after.tickets[k].tenantId == tenantId && after.tickets[k].status == Open && after.tickets[k].createdAt == s.now
    && after.tickets[k].number == NextNumber(t.counters, tenantId)
    && after.counters == t.counters[tenantId := after.tickets[k].number + 1]
    && |after.outbox| == |t.outbox| + 1 && after.outbox == t.outbox + [after.outbox[|t.outbox|]] && after.outbox[|t.outbox|].id == s.eventId
  }

  lemma InsertedAdds(t: Tables, k: Id, row: TicketRow, actorId: Id, s: Stamp)
    requires FindMessage(t.outbox, s.eventId).None? && !NumberTaken(t.tickets, row.tenantId, row.number)
    requires row.number == NextNumber(t.counters, row.tenantId) && row.status == Open && row.createdAt == s.now
    ensures var r := Inserted(Reserved(t, row.tenantId), k, row, actorId, s);
            r.Ok? && Added(t, r.value, row.tenantId, k, s)
  {
  }

  lemma CreationAdds(t: Tables, input: CreateTicketInput, k: Id, s: Stamp)
    requires ValidSubject(input.subject) && ValidDescription(input.description) && FindMessage(t.outbox, s.eventId).None?
    requires !NumberTaken(t.tickets, input.tenantId, NextNumber(t.counters, input.tenantId))
    ensures Added(t, Exec(t, Create(input, k, s)), input.tenantId, k, s)
  {
    var row := Opened(input.tenantId, NextNumber(t.counters, input.tenantId), input.subject, input.description, input.priority, input.actorId, s.now);
    CreationLocks.CreateInserts(t, input, k, s, row);
    InsertedAdds(t, k, row, input.actorId, s);
  }

  /** Two open tickets of a tenant, the second one created later. */
  predicate TwoOpen(t: Tables, tenantId: Id, newer: Id, older: Id) {
    && t.tickets.Keys == {newer, older}
    && t.tickets[newer].tenantId == t.tickets[older].tenantId == tenantId
    && t.tickets[newer].status == t.tickets[older].status == Open
    && t.tickets[newer].createdAt > t.tickets[older].createdAt
  }

  lemma SecondIsFree(one: Tables, tenantId: Id, older: Id, s: Stamp, id: Id)
    requires Added(EmptyTables, one, tenantId, older, s) && id != s.eventId
    ensures FindMessage(one.outbox, id).None? && !NumberTaken(one.tickets, tenantId, NextNumber(one.counters, tenantId))
  {
    FindMessageAppend([], one.outbox[0], id);
  }

  lemma TwoAdded(one: Tables, two: Tables, tenantId: Id, older: Id, s: Stamp, newer: Id, later: Stamp, id: Id)
    requires Added(EmptyTables, one, tenantId, older, s) && Added(one, two, tenantId, newer, later)
    requires older != newer && s.now < later.now && id !in {s.eventId, later.eventId}
    ensures TwoOpen(two, tenantId, newer, older) && FindMessage(two.outbox, id).None?
  {
    SecondIsFree(one, tenantId, older, s, id);
    FindMessageAppend(one.outbox, two.outbox[1], id);
  }

  /** The state after a creation. */
  lemma Created(t: Tables, input: CreateTicketInput, k: Id, s: Stamp) returns (after: Tables)
    requires Reachable(t) && k !in t.tickets && ValidSubject(input.subject) && ValidDescription(input.description) && FindMessage(t.outbox, s.eventId).None?
    requires !NumberTaken(t.tickets, input.tenantId, NextNumber(t.counters, input.tenantId))
    ensures Reachable(after) && Added(t, after, input.tenantId, k, s)
  {
    after := Exec(t, Create(input, k, s));
    StaysReachable(t, Create(input, k, s));
    CreationAdds(t, input, k, s);
  }

  /** The state after the status change that happens between the two calls. */
  lemma PickedUp(t: Tables, tenantId: Id, newer: Id, older: Id, actorId: Id, s: Stamp) returns (after: Tables)
    requires TwoOpen(t, tenantId, newer, older) && FindMessage(t.outbox, s.eventId).None?
    ensures InTime([t, after])
    ensures after.tickets.Keys == {newer, older} && after.tickets[older] == t.tickets[older]
    ensures after.tickets[newer].status == InProgress && after.tickets[newer].tenantId == tenantId && after.tickets[newer].createdAt == t.tickets[newer].createdAt
  {
    var c := ChangeStatus(ChangeStatusInput(tenantId, actorId, newer, InProgress), s);
    after := Exec(t, c);
    OneStepLater(t, c);
  }

  /** The two calls, and what they miss. */
  lemma TwoCallsMiss(before: Tables, after: Tables, tenantId: Id, newer: Id, older: Id) returns (pages: seq<TicketPage>)
    requires TwoOpen(before, tenantId, newer, older)
    requires after.tickets.Keys == {newer, older} && after.tickets[older] == before.tickets[older]
    requires after.tickets[newer].tenantId == tenantId && after.tickets[newer].status == InProgress && after.tickets[newer].createdAt == before.tickets[newer].createdAt
    ensures IsListing([before.tickets, after.tickets], pages, tenantId, OPEN_TICKETS, 1)
    ensures |pages| == 2 && pages[1].nextCursor.None? && KeyOf(before.tickets, older) !in Gathered(ItemsOf(pages))
  {
    FirstPageOfTwo(before.tickets, tenantId, OPEN_TICKETS, newer, older);
    NextPageSkips(after.tickets, tenantId, OPEN_TICKETS, newer, older);
    var first, second := TicketPage([KeyOf(before.tickets, newer)], Some(newer)), TicketPage([], None);
    TwoPages(before.tickets, after.tickets, first, second, tenantId, OPEN_TICKETS, 1);
    pages := [first, second];
  }

  lemma TwoPages(before: map<Id, TicketRow>, after: map<Id, TicketRow>, first: TicketPage, second: TicketPage, tenantId: Id, f: TicketFilter, limit: int)
    requires first == List(before, tenantId, f, limit, None) && first.nextCursor.Some? && second == List(after, tenantId, f, limit, first.nextCursor)
    ensures IsListing([before, after], [first, second], tenantId, f, limit)
    ensures Gathered(ItemsOf([first, second])) == first.items + second.items
  {
    OnePage(before, first, tenantId, f, limit);
    var shots, pages := [before, after], [first, second];
    assert shots[..1] == [before] && pages[..1] == [first];
    TwoGathered(first, second);
  }

  lemma TwoGathered(first: TicketPage, second: TicketPage)
    ensures Gathered(ItemsOf([first, second])) == first.items + second.items
  {
    var pages, items := [first, second], [first.items, second.items];
    assert pages[..1] == [first] && items[..1] == [first.items];
    var noPages: seq<TicketPage> := [];
    var noItems: seq<seq<Key>> := [];
    assert [first][..0] == noPages && [first.items][..0] == noItems;
    assert ItemsOf([first]) == [first.items] && ItemsOf(pages) == items;
    assert Gathered([first.items]) == [] + first.items;
  }

  lemma OnePage(tickets: map<Id, TicketRow>, page: TicketPage, tenantId: Id, f: TicketFilter, limit: int)
    requires page == List(tickets, tenantId, f, limit, None)
    ensures IsListing([tickets], [page], tenantId, f, limit)
  {
    var noPages: seq<TicketPage> := [];
    var noShots: seq<map<Id, TicketRow>> := [];
    assert [page][..0] == noPages && [tickets][..0] == noShots;
    assert IsListing(noShots, noPages, tenantId, f, limit);
  }

  /** Two tickets are created, a client lists the open ones one at a time, and the newer is picked up between
      its calls: the older one, open all along, is never listed, and the client is told there is no more. */
  lemma LostWhileRunning(first: CreateTicketInput, older: Id, s1: Stamp, second: CreateTicketInput, newer: Id, s2: Stamp, actorId: Id, s3: Stamp)
    returns (before: Tables, after: Tables, pages: seq<TicketPage>)
    requires ValidSubject(first.subject) && ValidDescription(first.description) && ValidSubject(second.subject) && ValidDescription(second.description)
    requires first.tenantId == second.tenantId && older != newer && s1.now < s2.now
    requires s1.eventId != s2.eventId && s3.eventId !in {s1.eventId, s2.eventId}
    ensures Reachable(before) && InTime([before, after])
    ensures IsListing([before.tickets, after.tickets], pages, first.tenantId, OPEN_TICKETS, 1)
    ensures |pages| == 2 && pages[1].nextCursor.None?
    ensures older in before.tickets && older in after.tickets && before.tickets[older].status == after.tickets[older].status == Open
    ensures KeyOf(before.tickets, older) !in Gathered(ItemsOf(pages))
  {
    before := TwoCreated(first, older, s1, second, newer, s2, s3.eventId);
    after := PickedUp(before, first.tenantId, newer, older, actorId, s3);
    pages := TwoCallsMiss(before, after, first.tenantId, newer, older);
  }

  lemma TwoCreated(first: CreateTicketInput, older: Id, s1: Stamp, second: CreateTicketInput, newer: Id, s2: Stamp, id: Id) returns (t: Tables)
    requires ValidSubject(first.subject) && ValidDescription(first.description) && ValidSubject(second.subject) && ValidDescription(second.description)
    requires first.tenantId == second.tenantId && older != newer && s1.now < s2.now && s1.eventId != s2.eventId && id !in {s1.eventId, s2.eventId}
    ensures Reachable(t) && TwoOpen(t, first.tenantId, newer, older) && FindMessage(t.outbox, id).None?
  {
    var one := FirstCreated(first, older, s1);
    t := SecondCreated(one, first.tenantId, older, s1, second, newer, s2);
    TwoAdded(one, t, first.tenantId, older, s1, newer, s2, id);
  }

  lemma FirstCreated(input: CreateTicketInput, k: Id, s: Stamp) returns (t: Tables)
    requires ValidSubject(input.subject) && ValidDescription(input.description)
    ensures Reachable(t) && Added(EmptyTables, t, input.tenantId, k, s)
  {
    EmptyIsReachable();
    t := Created(EmptyTables, input, k, s);
  }

  lemma SecondCreated(one: Tables, tenantId: Id, older: Id, s1: Stamp, input: CreateTicketInput, k: Id, s: Stamp) returns (t: Tables)
    requires Reachable(one) && Added(EmptyTables, one, tenantId, older, s1) && k != older && s.eventId != s1.eventId
    requires input.tenantId == tenantId && ValidSubject(input.subject) && ValidDescription(input.description)
    ensures Reachable(t) && Added(one, t, tenantId, k, s)
  {
    SecondIsFree(one, tenantId, older, s1, s.eventId);
    t := Created(one, input, k, s);
  }

  lemma OneStepLater(t: Tables, c: Command)
    requires Enabled(t, c)
    ensures InTime([t, Exec(t, c)])
  {
    var none: seq<Command> := [];
    RunAppend(t, none, c);
    assert Later(t, Exec(t, c));
    assert [t, Exec(t, c)][..1] == [t];
  }
}
