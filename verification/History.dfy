/** The ticket row, its audit trail and its events are three separate writes that tell one story. */
module History {
  import opened Kernel
  import opened TicketDomain
  import opened Tables
  import opened Changes

  /** What the events can say of a ticket: everything but its description. */
  function Bare(row: TicketRow): TicketRow {
    row.(description := [])
  }

  /** The story of one ticket: its events pair one to one, in commit order, with its audit entries, and
      replaying them rebuilds the stored row. A ticket nobody created has no events. */
  ghost predicate Story(tickets: map<Id, TicketRow>, audit: seq<AuditEntry>, outbox: seq<Message>, id: Id) {
    && Paired(AuditOf(audit, id), EventsOf(outbox, id))
    && (id in tickets ==> Replay(EventsOf(outbox, id)) == Some(Bare(tickets[id])))
    && (id !in tickets ==> EventsOf(outbox, id) == [])
  }

  ghost predicate Stories(tickets: map<Id, TicketRow>, audit: seq<AuditEntry>, outbox: seq<Message>) {
    forall id: Id :: Story(tickets, audit, outbox, id)
  }

  /** One more event that follows, with its entry: the story goes on, and nobody else's changes. */
  lemma StoryContinues(tickets: map<Id, TicketRow>, audit: seq<AuditEntry>, outbox: seq<Message>, id: Id, row: TicketRow, entry: AuditEntry, m: Message)
    requires Stories(tickets, audit, outbox)
    requires entry.entity == TicketEntity(id) && m.event.aggregateId == id && Tells(entry, m.event)
    requires if id in tickets then Follows(tickets[id], m.event) && row == Evolved(tickets[id], m.event)
             else Announced(m.event) == Some(Bare(row))
    ensures Stories(tickets[id := row], audit + [entry], outbox + [m])
  {
    var tickets', audit', outbox' := tickets[id := row], audit + [entry], outbox + [m];
    forall other: Id ensures Story(tickets', audit', outbox', other) {
      assert Story(tickets, audit, outbox, other);
      FilterAppend(IsAbout(other), audit, entry);
      EventsOfAppend(outbox, m, other);
      var events := EventsOf(outbox, other);
      if other == id {
        assert (events + [m.event])[..|events|] == events;
      }
    }
  }

  lemma StoriesIgnorePolicies(tickets: map<Id, TicketRow>, audit: seq<AuditEntry>, outbox: seq<Message>, entry: AuditEntry)
    requires Stories(tickets, audit, outbox) && entry.entity.SlaPolicyEntity?
    ensures Stories(tickets, audit + [entry], outbox)
  {
    var audit' := audit + [entry];
    forall id: Id ensures Story(tickets, audit', outbox, id) {
      assert Story(tickets, audit, outbox, id);
      FilterAppend(IsAbout(id), audit, entry);
    }
  }

  lemma HistoryStep(t: Tables, ch: Change)
    requires Stories(t.tickets, t.audit, t.outbox) && Sound(t, ch)
    ensures var after := Applied(t, ch); Stories(after.tickets, after.audit, after.outbox)
  {
    match ch
    case NewTicket(id, row, entry, m) =>
      StoryContinues(t.tickets, t.audit, t.outbox, id, row, entry, m);
    case TicketEvent(id, entry, m, _, _) =>
      StoryContinues(t.tickets, t.audit, t.outbox, id, Evolved(t.tickets[id], m.event), entry, m);
    case BreachClock(timerId, _, entry, m) =>
      var id := t.timers[timerId].ticketId;
      StoryContinues(t.tickets, t.audit, t.outbox, id, t.tickets[id], entry, m);
      assert t.tickets[id := t.tickets[id]] == t.tickets;
    case SetPolicy(_, _, _, entry) => StoriesIgnorePolicies(t.tickets, t.audit, t.outbox, entry);
    case DropPolicy(_, _, entry) => StoriesIgnorePolicies(t.tickets, t.audit, t.outbox, entry);
    case _ => assert Applied(t, ch).tickets == t.tickets && Applied(t, ch).audit == t.audit && Applied(t, ch).outbox == t.outbox;
  }

  lemma OutboxStep(t: Tables, ch: Change)
    requires UniqueMessages(t.outbox) && Sound(t, ch)
    ensures UniqueMessages(Applied(t, ch).outbox)
    ensures t.outbox <= Applied(t, ch).outbox
  {
    if ch.NewTicket? || ch.TicketEvent? || ch.BreachClock? {
      FindMessageIsIn(t.outbox, ch.m.id);
      assert Applied(t, ch).outbox == t.outbox + [ch.m];
    } else {
      assert Applied(t, ch).outbox == t.outbox;
    }
  }

  // ----------------------------------------------- what a story lets one read

  /** What never changes along a story: who the ticket is, as its first event announced it. Every event
      is of its tenant and of the version this code writes. */
  lemma {:induction false} ReplayIdentity(events: seq<DomainEvent>)
    requires Replay(events).Some?
    ensures var row := Replay(events).value;
            && events[0].payload.TicketCreated?
            && events[0].payload.number == row.number
            && events[0].payload.priority == row.priority
            && events[0].payload.requesterId == row.requesterId
            && events[0].occurredAt == row.createdAt
            && (forall i :: 0 <= i < |events| ==>
                              && events[i].tenantId == row.tenantId
                              && events[i].version == VersionOf(events[i].payload)
                              && !events[i].payload.Unlisted?)
            && (forall i :: 0 < i < |events| ==> !events[i].payload.TicketCreated?)
  {
    if |events| > 1 {
      ReplayIdentity(events[..|events| - 1]);
    }
  }

  /** A ticket that is resolved or closed was resolved by one of its events, at the instant it keeps as its
      resolution date, and has at most been closed since: closing is only possible from there. */
  lemma {:induction false} ReplayResolved(events: seq<DomainEvent>) returns (i: nat)
    requires Replay(events).Some? && Replay(events).value.status in {Resolved, Status.Closed}
    ensures i < |events| && events[i].payload.TicketStatusChanged? && events[i].payload.to == Resolved
    ensures Replay(events).value.resolvedAt == Some(events[i].occurredAt)
    ensures forall j :: i < j < |events| && events[j].payload.TicketStatusChanged? ==> events[j].payload.to == Status.Closed
  {
    var last := events[|events| - 1];
    var before := events[..|events| - 1];
    if last.payload.TicketStatusChanged? && last.payload.to == Resolved {
      i := |events| - 1;
    } else {
      i := ReplayResolved(before);
    }
  }

  /** A closed ticket was closed by the event whose instant it keeps as its closing date. */
  lemma {:induction false} ReplayClosed(events: seq<DomainEvent>) returns (i: nat)
    requires Replay(events).Some? && Replay(events).value.status == Status.Closed
    ensures i < |events| && events[i].payload.TicketStatusChanged? && events[i].payload.to == Status.Closed
    ensures Replay(events).value.closedAt == Some(events[i].occurredAt)
  {
    var last := events[|events| - 1];
    if last.payload.TicketStatusChanged? {
      i := |events| - 1;
    } else {
      i := ReplayClosed(events[..|events| - 1]);
    }
  }

  predicate IsAssignment(payload: Payload) {
    payload.TicketAssigned? || payload.TicketUnassigned?
  }

  /** A ticket is with whomever its last assignment names, and with nobody if that took it away or there was
      none. */
  lemma {:induction false} ReplayAssignee(events: seq<DomainEvent>) returns (last: Option<nat>)
    requires Replay(events).Some?
    ensures match last
            case None =>
              Replay(events).value.assigneeId == None && forall j :: 0 <= j < |events| ==> !IsAssignment(events[j].payload)
            case Some(i) =>
              && i < |events| && (forall j :: i < j < |events| ==> !IsAssignment(events[j].payload))
              && (events[i].payload.TicketUnassigned? || events[i].payload.TicketAssigned?)
              && Replay(events).value.assigneeId == if events[i].payload.TicketAssigned? then Some(events[i].payload.assignee) else None
  {
    var n := |events| - 1;
    if IsAssignment(events[n].payload) {
      last := Some(n);
    } else if n == 0 {
      last := None;
    } else {
      last := ReplayAssignee(events[..n]);
    }
  }

  /** A ticket was last changed by the last of its events that is not a breach. */
  lemma {:induction false} ReplayUpdated(events: seq<DomainEvent>) returns (i: nat)
    requires Replay(events).Some?
    ensures i < |events| && !events[i].payload.SlaBreached? && Replay(events).value.updatedAt == events[i].occurredAt
    ensures forall j :: i < j < |events| ==> events[j].payload.SlaBreached?
  {
    var n := |events| - 1;
    if events[n].payload.SlaBreached? {
      i := ReplayUpdated(events[..n]);
    } else {
      i := n;
    }
  }

  /** Life-cycle dates agree with the status: a ticket has a resolution date exactly when it is resolved
      or closed, and a closing date exactly when it is closed. */
  lemma {:induction false} ReplayDates(events: seq<DomainEvent>)
    requires Replay(events).Some?
    ensures var row := Replay(events).value;
            && (row.resolvedAt.Some? <==> row.status in {Resolved, Status.Closed})
            && (row.closedAt.Some? <==> row.status == Status.Closed)
  {
    if |events| > 1 {
      ReplayDates(events[..|events| - 1]);
    }
  }

  /** Nothing but a breach happens to a closed ticket, so closed is where every story ends. */
  lemma {:induction false} ReplayClosedIsFinal(events: seq<DomainEvent>, i: nat)
    requires Replay(events).Some?
    requires i < |events| && events[i].payload.TicketStatusChanged? && events[i].payload.to == Status.Closed
    ensures Replay(events).value.status == Status.Closed
    ensures forall j :: i < j < |events| ==> events[j].payload.SlaBreached?
  {
    var last := |events| - 1;
    if i < last {
      ReplayClosedIsFinal(events[..last], i);
      assert Follows(Replay(events[..last]).value, events[last]);
    }
  }

  /** What any message of the outbox says about the ticket it is of. */
  lemma MessageOfTicket(tickets: map<Id, TicketRow>, audit: seq<AuditEntry>, outbox: seq<Message>, m: Message)
    requires Stories(tickets, audit, outbox) && m in outbox
    ensures m.event.aggregateId in tickets
    ensures var row := tickets[m.event.aggregateId];
            && m.event.tenantId == row.tenantId
            && m.event.version == VersionOf(m.event.payload)
            && !m.event.payload.Unlisted?
            && (m.event.payload.TicketCreated? ==>
                  m.event.payload.number == row.number && m.event.payload.priority == row.priority && m.event.occurredAt == row.createdAt)
  {
    var id := m.event.aggregateId;
    assert Story(tickets, audit, outbox, id);
    EventsOfMembers(outbox, id);
    var events := EventsOf(outbox, id);
    ReplayIdentity(events);
    var i :| 0 <= i < |events| && events[i] == m.event;
  }
}
