/** What each ticket use case commits, as a function of the committed tables: the whole new state, or
    the reason nothing is written.
 */
module TicketTransactions {
  import opened Kernel
  import opened TicketDomain
  import opened Tables
  import opened Persistence
  import opened TicketAggregate

  /** What the surroundings supply to one transaction: the clock's reading, a generated message id and
      the request being served. */
  datatype Stamp = Stamp(now: Time, eventId: Id, requestId: Option<Id>)

  datatype CreateTicketInput = CreateTicketInput(tenantId: Id, actorId: Id, subject: Text, description: Text, priority: Priority)

  datatype ChangeStatusInput = ChangeStatusInput(tenantId: Id, actorId: Id, ticketId: Id, status: Status)

  datatype AssignTicketInput = AssignTicketInput(tenantId: Id, actorId: Id, ticketId: Id, assigneeId: Option<Id>)

  datatype AddCommentInput = AddCommentInput(tenantId: Id, actorId: Id, actorRole: string, ticketId: Id, body: Text)

  datatype AutoAssignInput = AutoAssignInput(eventId: Id, tenantId: Id, ticketId: Id, ticketNumber: TicketNumber)

  datatype AutoAssignOutcome =
    | AutoAssigned(assigneeId: Id)
    | AlreadyProcessed
    | NoSuchTicket
    | AlreadyAssigned
    | NoAgents
    | NotAssignable

  const BODY_MAX: nat := 10_000

  /** A ticket row, its audit entry and its event: written together or, if the message id is taken,
      not at all. */
  function Recorded(t: Tables, id: Id, row: TicketRow, entry: AuditEntry, m: Message): Attempt<Tables> {
    if FindMessage(t.outbox, m.id).Some? then Err(Threw)
    else Ok(t.(tickets := t.tickets[id := row], audit := t.audit + [entry], outbox := t.outbox + [m]))
  }

  /** The audit entry of a new ticket. */
  function OpeningEntry(id: Id, row: TicketRow, actorId: Id, now: Time): AuditEntry {
    AuditEntry(row.tenantId, actorId, NameCreated, TicketEntity(id), MetaCreated(row.number, row.priority), now)
  }

  /** The record of a new ticket; the unique index on its number has a say. */
  function Inserted(t: Tables, id: Id, row: TicketRow, actorId: Id, s: Stamp): Attempt<Tables> {
    if NumberTaken(t.tickets, row.tenantId, row.number) then Err(Threw)
    else
      Recorded(t, id, row, OpeningEntry(id, row, actorId, s.now), Message(s.eventId, OpeningEvent(id, row), s.requestId))
  }

  /** The record of something that happened to an existing ticket. */
  function Happened(t: Tables, id: Id, row: TicketRow, payload: Payload, actorId: Id, metadata: Metadata, s: Stamp): Attempt<Tables> {
    var event := EventAt(id, row.tenantId, s.now, payload);
    Recorded(t, id, Evolved(row, event),
             AuditEntry(row.tenantId, actorId, NameOf(payload), TicketEntity(id), metadata, s.now),
             Message(s.eventId, event, s.requestId))
  }

  /** `EventRecorder` gives every event a message id of its own. */
  function Numbered(events: seq<DomainEvent>, ids: seq<Id>, requestId: Option<Id>): seq<Message>
    requires |events| <= |ids|
  {
    seq(|events|, i requires 0 <= i < |events| => Message(ids[i], events[i], requestId))
  }

  lemma NumberedOne(event: DomainEvent, id: Id, requestId: Option<Id>, outbox: seq<Message>)
    ensures Numbered([event], [id], requestId) == [Message(id, event, requestId)]
    ensures CanAppend(outbox, [Message(id, event, requestId)]) <==> FindMessage(outbox, id).None?
  {
  }

  function Yield<T>(written: Attempt<Tables>, outcome: T): Attempt<(Tables, T)> {
    match written
    case Ok(t) => Ok((t, outcome))
    case Err(failure) => Err(failure)
  }

  function CreateTicketTx(t: Tables, input: CreateTicketInput, ticketId: Id, s: Stamp): Attempt<(Tables, Id)> {
    var number := NextNumber(t.counters, input.tenantId);
    if !ValidSubject(input.subject) then Err(Rejected(InvalidTicketSubject))
    else if !ValidDescription(input.description) then Err(Rejected(InvalidTicketDescription))
    else
      var row := Opened(input.tenantId, number, input.subject, input.description, input.priority, input.actorId, s.now);
      Yield(Inserted(Reserved(t, input.tenantId), ticketId, row, input.actorId, s), ticketId)
  }

  function ChangeStatusTx(t: Tables, input: ChangeStatusInput, s: Stamp): Attempt<(Tables, Id)> {
    match FindTicket(t.tickets, input.tenantId, input.ticketId)
    case None => Err(Rejected(TicketNotFound))
    case Some(row) =>
      if row.status == input.status then Ok((t, input.ticketId))
      else if !CanTransition(row.status, input.status) then Err(Rejected(InvalidTicketTransition))
      else Yield(Happened(t, input.ticketId, row, TicketStatusChanged(row.status, input.status, row.assigneeId),
                          input.actorId, MetaStatusChanged(row.status, input.status), s),
                 input.ticketId)
  }

  /** `members` is the tenant's membership list, which belongs to another context. */
  function AssignTicketTx(t: Tables, input: AssignTicketInput, members: set<Id>, s: Stamp): Attempt<(Tables, Id)> {
    match FindTicket(t.tickets, input.tenantId, input.ticketId)
    case None => Err(Rejected(TicketNotFound))
    case Some(row) =>
      if input.assigneeId.Some? && input.assigneeId.value !in members then Err(Rejected(AssigneeNotFound))
      else if IsTerminal(row.status) then Err(Rejected(TicketClosed))
      else
        var payload := if input.assigneeId.Some? then TicketAssigned(input.assigneeId.value, row.status) else TicketUnassigned(row.status);
        Yield(Happened(t, input.ticketId, row, payload, input.actorId, MetaAssigned(input.assigneeId, false), s),
              input.ticketId)
  }

  function AddCommentTx(t: Tables, input: AddCommentInput, commentId: Id, s: Stamp): Attempt<(Tables, Id)> {
    AddTrimmedTx(t, input.(body := Trim(input.body)), commentId, s)
  }

  function AddTrimmedTx(t: Tables, input: AddCommentInput, commentId: Id, s: Stamp): Attempt<(Tables, Id)> {
    match FindTicket(t.tickets, input.tenantId, input.ticketId)
    case None => Err(Rejected(TicketNotFound))
    case Some(row) =>
      if IsTerminal(row.status) then Err(Rejected(TicketClosed))
      else if !(1 <= |input.body| <= BODY_MAX) then Err(Rejected(EmptyComment))
      else if commentId in t.comments then Err(Threw)
      else
        var comment := CommentRow(input.tenantId, input.ticketId, input.actorId, input.body, s.now);
        Yield(Happened(t.(comments := t.comments[commentId := comment]), input.ticketId, row,
                       CommentAdded(commentId, input.actorId, input.actorRole), input.actorId, MetaComment(commentId), s),
              commentId)
  }

  /** Who gets ticket number `number`: one agent after the other, in the order of the list. */
  function Turn(agents: seq<Id>, number: TicketNumber): Id
    requires |agents| > 0
  {
    agents[(number - 1) % |agents|]
  }

  /** `agents` is the tenant's ordered list of agents, which belongs to another context. Everything the
      consumer skips is final, so the claim on the event is kept. */
  function AutoAssignTx(t: Tables, input: AutoAssignInput, agents: seq<Id>, s: Stamp): Attempt<(Tables, AutoAssignOutcome)>
  {
    if Claimed(t.processed, AutoAssign, input.eventId) then Ok((t, AlreadyProcessed))
    else
      var t1 := t.(processed := t.processed + [ProcessedRow(AutoAssign, input.eventId, input.tenantId)]);
      match FindTicket(t.tickets, input.tenantId, input.ticketId)
      case None => Ok((t1, NoSuchTicket))
      case Some(row) =>
        if row.assigneeId.Some? then Ok((t1, AlreadyAssigned))
        else if |agents| == 0 then Ok((t1, NoAgents))
        else if IsTerminal(row.status) then Ok((t1, NotAssignable))
        else
          var chosen := Turn(agents, input.ticketNumber);
          Yield(Happened(t1, input.ticketId, row, TicketAssigned(chosen, row.status), SYSTEM_ACTOR_ID, MetaAssigned(Some(chosen), true), s),
                AutoAssigned(chosen))
  }
}
