/** The rows the ticketing context keeps, and the two readings of a ticket's past: its events and its
    audit trail. Append-only tables are sequences, in commit order.
 */
module Tables {
  import opened Kernel
  import opened TicketDomain
  import opened SlaPolicy

  datatype TicketRow = TicketRow(
    tenantId: Id,
    number: TicketNumber,
    subject: Text,
    description: Text,
    status: Status,
    priority: Priority,
    requesterId: Id,
    assigneeId: Option<Id>,
    createdAt: Time,
    updatedAt: Time,
    resolvedAt: Option<Time>,
    closedAt: Option<Time>)

  datatype CommentRow = CommentRow(tenantId: Id, ticketId: Id, authorId: Id, body: Text, createdAt: Time)

  datatype TimerRow = TimerRow(
    tenantId: Id,
    ticketId: Id,
    kind: SlaKind,
    startedAt: Time,
    dueAt: Time,
    stoppedAt: Option<Time>,
    breachedAt: Option<Time>)
  {
    /** Neither stopped nor breached. */
    predicate IsRunning() {
      stoppedAt.None? && breachedAt.None?
    }
  }

  /** The names under which consumers register in `processed_messages`. */
  datatype Consumer = AutoAssign | SlaStart | SlaStop(kind: SlaKind)

  datatype ProcessedRow = ProcessedRow(consumer: Consumer, eventId: Id, tenantId: Id)

  datatype Entity = TicketEntity(id: Id) | SlaPolicyEntity(tenantId: Id)

  datatype Metadata =
    | MetaCreated(number: TicketNumber, priority: Priority)
    | MetaAssigned(assigneeId: Option<Id>, automatic: bool)
    | MetaStatusChanged(from: Status, to: Status)
    | MetaComment(commentId: Id)
    | MetaBreached(timerId: Id, kind: SlaKind, dueAt: Time)
    | MetaPolicy(priority: Priority, before: EffectiveTarget, after: SlaTarget, reset: bool)

  datatype AuditEntry = AuditEntry(
    tenantId: Id,
    actorId: Id,
    action: Name,
    entity: Entity,
    metadata: Metadata,
    occurredAt: Time)

  /** The reserved actor of everything the system does on its own. */
  const SYSTEM_ACTOR_ID: Id := 0

  datatype Tables = Tables(
    counters: map<Id, TicketNumber>,
    tickets: map<Id, TicketRow>,
    comments: map<Id, CommentRow>,
    audit: seq<AuditEntry>,
    outbox: seq<Message>,
    processed: seq<ProcessedRow>,
    timers: map<Id, TimerRow>,
    policies: map<(Id, Priority), SlaTarget>)

  const EmptyTables: Tables := Tables(map[], map[], map[], [], [], [], map[], map[])

  // ------------------------------------------------------------ read access

  /** `findFirst({ id, tenantId })`. */
  function FindTicket(tickets: map<Id, TicketRow>, tenantId: Id, id: Id): Option<TicketRow> {
    if id in tickets && tickets[id].tenantId == tenantId then Some(tickets[id]) else None
  }

  /** The outbox row with this id; ids are unique, so the last match is the only one. */
  function FindMessage(outbox: seq<Message>, id: Id): Option<Message> {
    if |outbox| == 0 then None
    else if outbox[|outbox| - 1].id == id then Some(outbox[|outbox| - 1])
    else FindMessage(outbox[..|outbox| - 1], id)
  }

  lemma FindMessageAppend(outbox: seq<Message>, m: Message, id: Id)
    ensures FindMessage(outbox + [m], id) == if m.id == id then Some(m) else FindMessage(outbox, id)
  {
    assert (outbox + [m])[..|outbox|] == outbox;
  }

  lemma {:induction false} FindMessageIsIn(outbox: seq<Message>, id: Id)
    ensures FindMessage(outbox, id).Some? <==> exists m :: m in outbox && m.id == id
    ensures FindMessage(outbox, id).Some? ==> FindMessage(outbox, id).value in outbox && FindMessage(outbox, id).value.id == id
  {
    if |outbox| > 0 {
      var init := outbox[..|outbox| - 1];
      FindMessageIsIn(init, id);
      assert outbox == init + [outbox[|outbox| - 1]];
    }
  }

  /** The outbox has a primary key. */
  ghost predicate UniqueMessages(outbox: seq<Message>) {
    forall i, j :: 0 <= i < j < |outbox| ==> outbox[i].id != outbox[j].id
  }

  lemma {:induction false} FindMessageOf(outbox: seq<Message>, m: Message)
    requires UniqueMessages(outbox) && m in outbox
    ensures FindMessage(outbox, m.id) == Some(m)
  {
    var last := outbox[|outbox| - 1];
    if last != m {
      var init := outbox[..|outbox| - 1];
      assert outbox == init + [last];
      var i :| 0 <= i < |outbox| && outbox[i] == m;
      assert init[i] == m;
      FindMessageOf(init, m);
    }
  }

  predicate Claimed(processed: seq<ProcessedRow>, consumer: Consumer, eventId: Id) {
    exists i :: 0 <= i < |processed| && processed[i].consumer == consumer && processed[i].eventId == eventId
  }

  function OverridesOf(policies: map<(Id, Priority), SlaTarget>, tenantId: Id): Overrides {
    map p | p in TICKET_PRIORITIES && (tenantId, p) in policies :: policies[(tenantId, p)]
  }

  // ------------------------------------------------- a ticket told by events

  /** What `event` turns a ticket into. A breach is recorded by the ticket but does not change it. */
  function Evolved(row: TicketRow, event: DomainEvent): TicketRow {
    var at := event.occurredAt;
    match event.payload
    case TicketAssigned(assignee, _) => row.(assigneeId := Some(assignee), updatedAt := at)
    case TicketUnassigned(_) => row.(assigneeId := None, updatedAt := at)
    case TicketStatusChanged(_, Resolved, _) => row.(status := Resolved, resolvedAt := Some(at), updatedAt := at)
    case TicketStatusChanged(_, Closed, _) => row.(status := Status.Closed, closedAt := Some(at), updatedAt := at)
    case TicketStatusChanged(_, to, _) => row.(status := to, resolvedAt := None, closedAt := None, updatedAt := at)
    case CommentAdded(_, _, _) => row.(updatedAt := at)
    case SlaBreached(_, _, _, _, _) => row
    case TicketCreated(_, _, _, _, _) => row
    case Unlisted(_) => row
  }

  /** Can this event be the next thing that happens to a ticket in this state, telling it as it is? */
  predicate Follows(row: TicketRow, event: DomainEvent) {
    && event.tenantId == row.tenantId
    && event.version == VersionOf(event.payload)
    && match event.payload
       case TicketAssigned(_, status) => status == row.status && !IsTerminal(row.status)
       case TicketUnassigned(status) => status == row.status && !IsTerminal(row.status)
       case TicketStatusChanged(from, to, assigneeId) => from == row.status && CanTransition(from, to) && assigneeId == row.assigneeId
       case CommentAdded(_, _, _) => !IsTerminal(row.status)
       case SlaBreached(_, _, _, assigneeId, priority) => assigneeId == row.assigneeId && priority == row.priority
       case TicketCreated(_, _, _, _, _) => false
       case Unlisted(_) => false
  }

  /** The ticket a `ticket.created` event announces. The event leaves the description out. */
  function Announced(event: DomainEvent): Option<TicketRow> {
    match event.payload
    case TicketCreated(number, subject, priority, Open, requesterId) =>
      if event.version == VersionOf(event.payload)
      then Some(TicketRow(event.tenantId, number, subject, [], Open, priority, requesterId, None, event.occurredAt, event.occurredAt, None, None))
      else None
    case _ => None
  }

  /** The ticket its events tell: the first announces it and each next one follows the state so far. */
  ghost function Replay(events: seq<DomainEvent>): Option<TicketRow> {
    if |events| == 0 then None
    else
      var last := events[|events| - 1];
      if |events| == 1 then Announced(last)
      else
        match Replay(events[..|events| - 1])
        case None => None
        case Some(row) => if Follows(row, last) then Some(Evolved(row, last)) else None
  }

  ghost function EventsOf(outbox: seq<Message>, ticketId: Id): seq<DomainEvent> {
    if |outbox| == 0 then []
    else
      var rest := EventsOf(outbox[..|outbox| - 1], ticketId);
      var event := outbox[|outbox| - 1].event;
      if event.aggregateId == ticketId then rest + [event] else rest
  }

  lemma EventsOfAppend(outbox: seq<Message>, m: Message, ticketId: Id)
    ensures EventsOf(outbox + [m], ticketId) == EventsOf(outbox, ticketId) + if m.event.aggregateId == ticketId then [m.event] else []
  {
    assert (outbox + [m])[..|outbox|] == outbox;
  }

  lemma {:induction false} EventsOfMembers(outbox: seq<Message>, ticketId: Id)
    ensures forall m :: m in outbox && m.event.aggregateId == ticketId ==> m.event in EventsOf(outbox, ticketId)
    ensures forall e :: e in EventsOf(outbox, ticketId) ==> e.aggregateId == ticketId && exists m :: m in outbox && m.event == e
  {
    if |outbox| > 0 {
      var init := outbox[..|outbox| - 1];
      EventsOfMembers(init, ticketId);
      assert outbox == init + [outbox[|outbox| - 1]];
    }
  }

  // ---------------------------------------------- a ticket told by its audit

  function IsAbout(ticketId: Id): AuditEntry -> bool {
    (entry: AuditEntry) => entry.entity == TicketEntity(ticketId)
  }

  ghost function AuditOf(audit: seq<AuditEntry>, ticketId: Id): seq<AuditEntry> {
    Filter(IsAbout(ticketId), audit)
  }

  /** An audit entry and an event that tell the same thing: same name, same instant, same tenant and
      the same facts; and the entry names who did it, where the event has it too or it was the system. */
  predicate Tells(entry: AuditEntry, event: DomainEvent) {
    && entry.action == NameOf(event.payload)
    && entry.occurredAt == event.occurredAt
    && entry.tenantId == event.tenantId
    && match event.payload
       case TicketCreated(number, _, priority, _, requesterId) => entry.metadata == MetaCreated(number, priority) && entry.actorId == requesterId
       case TicketAssigned(assignee, _) =>
         && entry.metadata.MetaAssigned? && entry.metadata.assigneeId == Some(assignee)
         && (entry.metadata.automatic ==> entry.actorId == SYSTEM_ACTOR_ID)
       case TicketUnassigned(_) => entry.metadata == MetaAssigned(None, false)
       case TicketStatusChanged(from, to, _) => entry.metadata == MetaStatusChanged(from, to)
       case CommentAdded(commentId, authorId, _) => entry.metadata == MetaComment(commentId) && entry.actorId == authorId
       case SlaBreached(timerId, kind, dueAt, _, _) => entry.metadata == MetaBreached(timerId, kind, dueAt) && entry.actorId == SYSTEM_ACTOR_ID
       case Unlisted(_) => false
  }

  ghost predicate Paired(entries: seq<AuditEntry>, events: seq<DomainEvent>) {
    && |entries| == |events|
    && forall i :: 0 <= i < |events| ==> Tells(entries[i], events[i])
  }
}
