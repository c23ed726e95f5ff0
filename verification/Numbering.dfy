/** Ticket numbers: per tenant, the tickets are numbered 1, 2, 3 ... without a gap or a repeat. */
module Numbering {
  import opened Kernel
  import opened TicketDomain
  import opened Tables
  import opened Persistence
  import opened TicketTransactions
  import opened SlaTransactions
  import opened Consumers
  import opened Changes

  ghost predicate NumbersBelow(tickets: map<Id, TicketRow>, counters: map<Id, TicketNumber>) {
    forall id :: id in tickets ==> tickets[id].number < NextNumber(counters, tickets[id].tenantId)
  }

  ghost predicate NumbersDiffer(tickets: map<Id, TicketRow>) {
    forall i, j :: i in tickets && j in tickets && tickets[i].tenantId == tickets[j].tenantId && tickets[i].number == tickets[j].number ==> i == j
  }

  ghost predicate NumbersFilled(tickets: map<Id, TicketRow>, counters: map<Id, TicketNumber>) {
    forall tenantId: Id, n: TicketNumber :: n < NextNumber(counters, tenantId) ==> NumberTaken(tickets, tenantId, n)
  }

  /** The numbers of a tenant's tickets are exactly those below its counter, each used once. */
  ghost predicate Gapless(tickets: map<Id, TicketRow>, counters: map<Id, TicketNumber>) {
    NumbersBelow(tickets, counters) && NumbersDiffer(tickets) && NumbersFilled(tickets, counters)
  }

  /** Rewriting tickets without touching who they are keeps the series as it is. */
  lemma GaplessSameIdentity(tickets: map<Id, TicketRow>, counters: map<Id, TicketNumber>, id: Id, row: TicketRow)
    requires Gapless(tickets, counters)
    requires id in tickets && row.tenantId == tickets[id].tenantId && row.number == tickets[id].number
    ensures Gapless(tickets[id := row], counters)
  {
    var after := tickets[id := row];
    forall tenantId: Id, n: TicketNumber | n < NextNumber(counters, tenantId)
      ensures NumberTaken(after, tenantId, n)
    {
      assert NumberTaken(tickets, tenantId, n);
      var i :| i in tickets && tickets[i].tenantId == tenantId && tickets[i].number == n;
      assert i in after && after[i].tenantId == tenantId && after[i].number == n;
    }
  }

  /** A new ticket on the counter's number extends the series by one. */
  lemma GaplessNext(tickets: map<Id, TicketRow>, counters: map<Id, TicketNumber>, id: Id, row: TicketRow)
    requires Gapless(tickets, counters)
    requires id !in tickets && row.number == NextNumber(counters, row.tenantId)
    ensures !NumberTaken(tickets, row.tenantId, row.number)
    ensures Gapless(tickets[id := row], counters[row.tenantId := row.number + 1])
  {
    var after := tickets[id := row];
    var counted := counters[row.tenantId := row.number + 1];
    forall tenantId: Id, n: TicketNumber | n < NextNumber(counted, tenantId)
      ensures NumberTaken(after, tenantId, n)
    {
      if tenantId == row.tenantId && n == row.number {
        assert id in after;
      } else {
        assert NumberTaken(tickets, tenantId, n);
        var i :| i in tickets && tickets[i].tenantId == tenantId && tickets[i].number == n;
        assert i in after && after[i].tenantId == tenantId && after[i].number == n;
      }
    }
  }

  lemma NumberingStep(t: Tables, ch: Change)
    requires Gapless(t.tickets, t.counters) && Sound(t, ch)
    ensures Gapless(Applied(t, ch).tickets, Applied(t, ch).counters)
  {
    match ch
    case NewTicket(id, row, _, _) => GaplessNext(t.tickets, t.counters, id, row);
    case TicketEvent(id, _, m, _, _) => GaplessSameIdentity(t.tickets, t.counters, id, Evolved(t.tickets[id], m.event));
    case _ => assert Applied(t, ch).tickets == t.tickets && Applied(t, ch).counters == t.counters;
  }
}
