/** What somebody who asks for something gets: when it is granted, which error refuses it otherwise, and
    every field it leaves behind. Said of the answer and of the rows, and then proved of what each ticket
    use case commits.
 */
module Requests {
  import opened Kernel
  import opened TicketDomain
  import opened Tables
  import opened Persistence
  import opened TicketAggregate
  import opened TicketTransactions

  function Answer<T>(spec: Attempt<(Tables, T)>): Attempt<T> {
    match spec
    case Ok(done) => Ok(done.1)
    case Err(failure) => Err(failure)
  }

  function Left<T>(before: Tables, spec: Attempt<(Tables, T)>): Tables {
    if spec.Ok? then spec.value.0 else before
  }

  // ---------------------------------------------------------------- one event

  /** No message of the outbox has this id. */
  ghost predicate IsNewMessage(outbox: seq<Message>, id: Id) {
    forall i :: 0 <= i < |outbox| ==> outbox[i].id != id
  }

  lemma NewMessageIff(outbox: seq<Message>, id: Id)
    ensures IsNewMessage(outbox, id) <==> FindMessage(outbox, id).None?
  {
    FindMessageIsIn(outbox, id);
  }

  /** One ticket has changed, and one entry by this actor and one message with this payload tell so, all of
      the same instant, tenant and ticket. Clocks, policies and the other tickets are as they were. */
  ghost predicate OneEvent(t: Tables, after: Tables, k: Id, tenantId: Id, actorId: Id, metadata: Metadata, payload: Payload, s: Stamp) {
    && |after.audit| == |t.audit| + 1 && after.audit[..|t.audit|] == t.audit
    && |after.outbox| == |t.outbox| + 1 && after.outbox[..|t.outbox|] == t.outbox
    && TellsWho(after.audit[|t.audit|], k, tenantId, actorId, metadata, s)
    && TellsWhat(after.outbox[|t.outbox|], k, tenantId, payload, s)
    && OthersKept(t.tickets, after.tickets, k)
    && after.timers == t.timers && after.policies == t.policies
  }

  predicate TellsWho(entry: AuditEntry, k: Id, tenantId: Id, actorId: Id, metadata: Metadata, s: Stamp) {
    && entry.actorId == actorId && entry.tenantId == tenantId
    && entry.entity == TicketEntity(k) && entry.occurredAt == s.now
    && entry.metadata == metadata
  }

  predicate TellsWhat(m: Message, k: Id, tenantId: Id, payload: Payload, s: Stamp) {
    && m.id == s.eventId && m.requestId == s.requestId
    && m.event.aggregateId == k && m.event.tenantId == tenantId && m.event.occurredAt == s.now
    && m.event.payload == payload
  }

  predicate OthersKept(before: map<Id, TicketRow>, after: map<Id, TicketRow>, k: Id) {
    k in after && after == before[k := after[k]]
  }

  lemma HappenedIsOneEvent(t: Tables, k: Id, row: TicketRow, payload: Payload, actorId: Id, metadata: Metadata, s: Stamp)
    ensures var r := Happened(t, k, row, payload, actorId, metadata, s);
            && (r.Ok? <==> IsNewMessage(t.outbox, s.eventId)) && (r.Err? ==> r == Err(Threw))
            && (r.Ok? ==>
                  && OneEvent(t, r.value, k, row.tenantId, actorId, metadata, payload, s)
                  && r.value.tickets[k] == Evolved(row, EventAt(k, row.tenantId, s.now, payload))
                  && r.value.comments == t.comments && r.value.processed == t.processed && r.value.counters == t.counters)
  {
    NewMessageIff(t.outbox, s.eventId);
  }

  /** The ticket is there, and of this tenant. */
  predicate IsOf(t: Tables, k: Id, tenantId: Id) {
    k in t.tickets && t.tickets[k].tenantId == tenantId
  }

  // ------------------------------------------------------------------ create

  /** What is asked for, without the blanks around its texts. */
  function Trimmed(input: CreateTicketInput): CreateTicketInput {
    input.(subject := Trim(input.subject), description := Trim(input.description))
  }

  predicate SubjectFits(subject: Text) {
    1 <= |subject| <= 200
  }

  predicate DescriptionFits(description: Text) {
    1 <= |description| <= 10_000
  }

  /** The number the tenant's counter holds is not in use; it never is in a reachable state. */
  ghost predicate CounterIsFree(t: Tables, tenantId: Id) {
    forall id :: id in t.tickets && t.tickets[id].tenantId == tenantId ==> t.tickets[id].number != if tenantId in t.counters then t.counters[tenantId] else 1
  }

  /** A ticket opens with what was asked for, each text in its place. */
  predicate OpensAsAsked(row: TicketRow, input: CreateTicketInput, now: Time) {
    && row.tenantId == input.tenantId
    && row.requesterId == input.actorId
    && row.subject == input.subject
    && row.description == input.description
    && row.priority == input.priority
    && row.status == Open
    && row.assigneeId == None
    && row.createdAt == row.updatedAt == now
    && row.resolvedAt == row.closedAt == None
  }

  ghost predicate Creates(t: Tables, input: CreateTicketInput, k: Id, s: Stamp, r: Attempt<Id>, after: Tables) {
    && (r == Err(Rejected(InvalidTicketSubject)) <==> !SubjectFits(input.subject))
    && (r == Err(Rejected(InvalidTicketDescription)) <==> SubjectFits(input.subject) && !DescriptionFits(input.description))
    && (r.Ok? <==> SubjectFits(input.subject) && DescriptionFits(input.description) && CounterIsFree(t, input.tenantId) && IsNewMessage(t.outbox, s.eventId))
    && (r.Err? ==> after == t)
    && (r.Ok? ==>
          && r.value == k && k in after.tickets && OpensAsAsked(after.tickets[k], input, s.now)
          && after.tickets[k].number == (if input.tenantId in t.counters then t.counters[input.tenantId] else 1)
          && after.counters == t.counters[input.tenantId := after.tickets[k].number + 1]
          && OneEvent(t, after, k, input.tenantId, input.actorId, MetaCreated(after.tickets[k].number, input.priority),
                      TicketCreated(after.tickets[k].number, input.subject, input.priority, Open, input.actorId), s)
          && after.comments == t.comments && after.processed == t.processed)
  }

  /** Writing this row with its announcement succeeds unless the number or the message id is in use. */
  ghost predicate Writes(t: Tables, k: Id, row: TicketRow, s: Stamp, w: Attempt<Tables>) {
    && (w.Ok? <==> CounterIsFree(t, row.tenantId) && IsNewMessage(t.outbox, s.eventId)) && (w.Err? ==> w == Err(Threw))
    && (w.Ok? ==>
          && OneEvent(t, w.value, k, row.tenantId, row.requesterId, MetaCreated(row.number, row.priority),
                      TicketCreated(row.number, row.subject, row.priority, Open, row.requesterId), s)
          && w.value.tickets[k] == row && w.value.counters == t.counters[row.tenantId := row.number + 1]
          && w.value.comments == t.comments && w.value.processed == t.processed)
  }

  lemma InsertedWrites(t: Tables, k: Id, row: TicketRow, s: Stamp)
    requires row.status == Open && row.createdAt == s.now && row.number == NextNumber(t.counters, row.tenantId)
    ensures Writes(t, k, row, s, Inserted(Reserved(t, row.tenantId), k, row, row.requesterId, s))
  {
    NewMessageIff(t.outbox, s.eventId);
  }

  lemma OpenedAsAsked(t: Tables, input: CreateTicketInput, k: Id, s: Stamp) returns (row: TicketRow)
    requires SubjectFits(Trimmed(input).subject) && DescriptionFits(Trimmed(input).description)
    ensures CreateTicketTx(t, input, k, s) == Yield(Inserted(Reserved(t, row.tenantId), k, row, row.requesterId, s), k)
    ensures OpensAsAsked(row, Trimmed(input), s.now) && row.number == NextNumber(t.counters, row.tenantId)
  {
    row := Opened(input.tenantId, NextNumber(t.counters, input.tenantId), input.subject, input.description, input.priority, input.actorId, s.now);
  }

  lemma WritingCreates(t: Tables, asked: CreateTicketInput, k: Id, s: Stamp, row: TicketRow, w: Attempt<Tables>)
    requires SubjectFits(asked.subject) && DescriptionFits(asked.description)
    requires OpensAsAsked(row, asked, s.now) && row.number == NextNumber(t.counters, row.tenantId) && Writes(t, k, row, s, w)
    ensures Creates(t, asked, k, s, Answer(Yield(w, k)), Left(t, Yield(w, k)))
  {
  }

  lemma CreateRefuses(t: Tables, input: CreateTicketInput, k: Id, s: Stamp)
    requires !SubjectFits(Trimmed(input).subject) || !DescriptionFits(Trimmed(input).description)
    ensures CreateTicketTx(t, input, k, s) == Err(Rejected(if SubjectFits(Trimmed(input).subject) then InvalidTicketDescription else InvalidTicketSubject))
  {
  }

  lemma RefusingCreates(t: Tables, asked: CreateTicketInput, k: Id, s: Stamp)
    requires !SubjectFits(asked.subject) || !DescriptionFits(asked.description)
    ensures Creates(t, asked, k, s, Err(Rejected(if SubjectFits(asked.subject) then InvalidTicketDescription else InvalidTicketSubject)), t)
  {
  }

  /** A creation is granted exactly when both texts fit once trimmed, and stores and announces what was asked
      for. */
  lemma CreateGrants(t: Tables, input: CreateTicketInput, k: Id, s: Stamp)
    ensures var spec := CreateTicketTx(t, input, k, s);
            Creates(t, Trimmed(input), k, s, Answer(spec), Left(t, spec))
  {
    var asked := Trimmed(input);
    if SubjectFits(asked.subject) && DescriptionFits(asked.description) {
      var row := OpenedAsAsked(t, input, k, s);
      var w := Inserted(Reserved(t, row.tenantId), k, row, row.requesterId, s);
      InsertedWrites(t, k, row, s);
      WritingCreates(t, asked, k, s, row, w);
    } else {
      CreateRefuses(t, input, k, s);
      RefusingCreates(t, asked, k, s);
    }
  }

  // ------------------------------------------------------------------- status

  /** Work starts, goes back to the queue, is done, and may be found wanting until it is closed. */
  predicate MayBecome(from: Status, to: Status) {
    (from, to) in {(Open, InProgress), (Open, Resolved), (InProgress, Resolved), (InProgress, Open), (Resolved, Status.Closed), (Resolved, Open)}
  }

  lemma TransitionsAre(from: Status, to: Status)
    ensures CanTransition(from, to) <==> MayBecome(from, to)
    ensures IsTerminal(from) <==> from == Status.Closed
  {
  }

  ghost predicate ChangesStatus(t: Tables, input: ChangeStatusInput, s: Stamp, r: Attempt<Id>, after: Tables) {
    var k := input.ticketId;
    && (r == Err(Rejected(TicketNotFound)) <==> !IsOf(t, k, input.tenantId))
    && (r.Err? ==> after == t)
    && (IsOf(t, k, input.tenantId) ==>
          var row := t.tickets[k];
          && (r == Err(Rejected(InvalidTicketTransition)) <==> row.status != input.status && !MayBecome(row.status, input.status))
          && (r.Ok? <==> row.status == input.status || (MayBecome(row.status, input.status) && IsNewMessage(t.outbox, s.eventId)))
          && (r.Ok? && row.status == input.status ==> after == t)
          && (r.Ok? && row.status != input.status ==>
                && OneEvent(t, after, k, input.tenantId, input.actorId, MetaStatusChanged(row.status, input.status),
                            TicketStatusChanged(row.status, input.status, row.assigneeId), s)
                && after.tickets[k] == row.(status := input.status, updatedAt := s.now,
                                            resolvedAt := if input.status == Resolved then Some(s.now) else if input.status == Status.Closed then row.resolvedAt else None,
                                            closedAt := if input.status == Status.Closed then Some(s.now) else if input.status == Resolved then row.closedAt else None)
                && after.comments == t.comments && after.processed == t.processed && after.counters == t.counters))
    && (r.Ok? ==> r.value == k)
  }

  /** Which changes of status are granted, pair by pair, and what they leave. */
  lemma ChangeStatusGrants(t: Tables, input: ChangeStatusInput, s: Stamp)
    ensures var spec := ChangeStatusTx(t, input, s);
            ChangesStatus(t, input, s, Answer(spec), Left(t, spec))
  {
    if IsOf(t, input.ticketId, input.tenantId) {
      var row := t.tickets[input.ticketId];
      TransitionsAre(row.status, input.status);
      HappenedIsOneEvent(t, input.ticketId, row, TicketStatusChanged(row.status, input.status, row.assigneeId), input.actorId,
                         MetaStatusChanged(row.status, input.status), s);
    }
  }

  // ------------------------------------------------------------------- assign

  ghost predicate Assigns(t: Tables, input: AssignTicketInput, members: set<Id>, s: Stamp, r: Attempt<Id>, after: Tables) {
    var k := input.ticketId;
    && (r == Err(Rejected(TicketNotFound)) <==> !IsOf(t, k, input.tenantId))
    && (r.Err? ==> after == t)
    && (IsOf(t, k, input.tenantId) ==>
          var row := t.tickets[k];
          var known := input.assigneeId.Some? ==> input.assigneeId.value in members;
          && (r == Err(Rejected(AssigneeNotFound)) <==> !known)
          && (r == Err(Rejected(TicketClosed)) <==> known && row.status == Status.Closed)
          && (r.Ok? <==> known && row.status != Status.Closed && IsNewMessage(t.outbox, s.eventId))
          && (r.Ok? ==>
                && OneEvent(t, after, k, input.tenantId, input.actorId, MetaAssigned(input.assigneeId, false),
                            match input.assigneeId case Some(a) => TicketAssigned(a, row.status) case None => TicketUnassigned(row.status), s)
                && after.tickets[k] == row.(assigneeId := input.assigneeId, updatedAt := s.now)
                && after.comments == t.comments && after.processed == t.processed && after.counters == t.counters))
    && (r.Ok? ==> r.value == k)
  }

  /** Assigning by hand is granted on a ticket that is not closed, to members only. */
  lemma AssignGrants(t: Tables, input: AssignTicketInput, members: set<Id>, s: Stamp)
    ensures var spec := AssignTicketTx(t, input, members, s);
            Assigns(t, input, members, s, Answer(spec), Left(t, spec))
  {
    if IsOf(t, input.ticketId, input.tenantId) {
      var row := t.tickets[input.ticketId];
      TransitionsAre(row.status, row.status);
      var payload := if input.assigneeId.Some? then TicketAssigned(input.assigneeId.value, row.status) else TicketUnassigned(row.status);
      HappenedIsOneEvent(t, input.ticketId, row, payload, input.actorId, MetaAssigned(input.assigneeId, false), s);
    }
  }

  // ------------------------------------------------------------------ comment

  ghost predicate Comments(t: Tables, input: AddCommentInput, commentId: Id, s: Stamp, r: Attempt<Id>, after: Tables) {
    var k := input.ticketId;
    && (r == Err(Rejected(TicketNotFound)) <==> !IsOf(t, k, input.tenantId))
    && (r.Err? ==> after == t)
    && (IsOf(t, k, input.tenantId) ==>
          var row := t.tickets[k];
          var fits := 1 <= |input.body| <= 10_000;
          && (r == Err(Rejected(TicketClosed)) <==> row.status == Status.Closed)
          && (r == Err(Rejected(EmptyComment)) <==> row.status != Status.Closed && !fits)
          && (r.Ok? <==> row.status != Status.Closed && fits && commentId !in t.comments && IsNewMessage(t.outbox, s.eventId))
          && (r.Ok? ==>
                && OneEvent(t, after, k, input.tenantId, input.actorId, MetaComment(commentId), CommentAdded(commentId, input.actorId, input.actorRole), s)
                && after.tickets[k] == row.(updatedAt := s.now)
                && commentId in after.comments && after.comments == t.comments[commentId := after.comments[commentId]]
                && SaysWhatWasTyped(after.comments[commentId], input, s.now)
                && after.processed == t.processed && after.counters == t.counters))
    && (r.Ok? ==> r.value == commentId)
  }

  predicate SaysWhatWasTyped(row: CommentRow, input: AddCommentInput, now: Time) {
    && row.tenantId == input.tenantId && row.ticketId == input.ticketId
    && row.authorId == input.actorId
    && row.body == input.body
    && row.createdAt == now
  }

  /** Storing this comment and telling it succeeds unless one of the ids is in use. */
  lemma CommentHappens(t: Tables, asked: AddCommentInput, commentId: Id, s: Stamp)
    requires IsOf(t, asked.ticketId, asked.tenantId) && t.tickets[asked.ticketId].status != Status.Closed
    requires 1 <= |asked.body| <= 10_000 && commentId !in t.comments
    ensures var comment := CommentRow(asked.tenantId, asked.ticketId, asked.actorId, asked.body, s.now);
            var w := Happened(t.(comments := t.comments[commentId := comment]), asked.ticketId, t.tickets[asked.ticketId],
                              CommentAdded(commentId, asked.actorId, asked.actorRole), asked.actorId, MetaComment(commentId), s);
            Comments(t, asked, commentId, s, Answer(Yield(w, commentId)), Left(t, Yield(w, commentId)))
  {
    var comment := CommentRow(asked.tenantId, asked.ticketId, asked.actorId, asked.body, s.now);
    HappenedIsOneEvent(t.(comments := t.comments[commentId := comment]), asked.ticketId, t.tickets[asked.ticketId],
                       CommentAdded(commentId, asked.actorId, asked.actorRole), asked.actorId, MetaComment(commentId), s);
  }

  /** A comment is granted on a ticket that is not closed, and is stored as typed, trimmed. */
  lemma CommentGrants(t: Tables, input: AddCommentInput, commentId: Id, s: Stamp)
    ensures var spec := AddCommentTx(t, input, commentId, s);
            Comments(t, input.(body := Trim(input.body)), commentId, s, Answer(spec), Left(t, spec))
  {
    TrimmedGrants(t, input.(body := Trim(input.body)), commentId, s);
  }

  lemma TrimmedGrants(t: Tables, asked: AddCommentInput, commentId: Id, s: Stamp)
    ensures var spec := AddTrimmedTx(t, asked, commentId, s);
            Comments(t, asked, commentId, s, Answer(spec), Left(t, spec))
  {
    if IsOf(t, asked.ticketId, asked.tenantId) {
      TransitionsAre(t.tickets[asked.ticketId].status, Open);
      if t.tickets[asked.ticketId].status != Status.Closed && 1 <= |asked.body| <= 10_000 && commentId !in t.comments {
        CommentHappens(t, asked, commentId, s);
      }
    }
  }

  // -------------------------------------------------------------- auto-assign

  /** The consumer has not seen this event yet. */
  ghost predicate IsFirstTime(processed: seq<ProcessedRow>, eventId: Id) {
    forall i :: 0 <= i < |processed| && processed[i].consumer == AutoAssign ==> processed[i].eventId != eventId
  }

  ghost predicate IsUnassigned(t: Tables, input: AutoAssignInput) {
    IsFirstTime(t.processed, input.eventId) && IsOf(t, input.ticketId, input.tenantId) && t.tickets[input.ticketId].assigneeId == None
  }

  /** The only case in which the system assigns a ticket: nobody has yet, and it is open to that. */
  ghost predicate IsUpForAssignment(t: Tables, input: AutoAssignInput, agents: seq<Id>) {
    IsUnassigned(t, input) && t.tickets[input.ticketId].status != Status.Closed && agents != []
  }

  /** An assignment made by hand stands: then only the claim is written. */
  ghost predicate AutoAssigns(t: Tables, input: AutoAssignInput, agents: seq<Id>, s: Stamp, r: Attempt<AutoAssignOutcome>, after: Tables) {
    var k := input.ticketId;
    && (r == Ok(AlreadyProcessed) <==> !IsFirstTime(t.processed, input.eventId))
    && (r == Ok(NoSuchTicket) <==> IsFirstTime(t.processed, input.eventId) && !IsOf(t, k, input.tenantId))
    && (r == Ok(AlreadyAssigned) <==> IsFirstTime(t.processed, input.eventId) && IsOf(t, k, input.tenantId) && t.tickets[k].assigneeId.Some?)
    && (r.Err? <==> IsUpForAssignment(t, input, agents) && !IsNewMessage(t.outbox, s.eventId))
    && ((exists a :: r == Ok(AutoAssigned(a))) <==> IsUpForAssignment(t, input, agents) && IsNewMessage(t.outbox, s.eventId))
    && (r == Ok(NoAgents) <==> IsUnassigned(t, input) && agents == [])
    && (r == Ok(NotAssignable) <==> IsUnassigned(t, input) && agents != [] && t.tickets[k].status == Status.Closed)
    && (r.Err? || r == Ok(AlreadyProcessed) ==> after == t)
    && (r.Ok? && r.value != AlreadyProcessed ==> after.processed == t.processed + [ProcessedRow(AutoAssign, input.eventId, input.tenantId)])
    && (r.Ok? && !r.value.AutoAssigned? ==> after == t.(processed := after.processed))
    && (r.Ok? && r.value.AutoAssigned? ==>
          && IsUpForAssignment(t, input, agents)
          && r.value.assigneeId == agents[(input.ticketNumber - 1) % |agents|]
          && OneEvent(t, after, k, input.tenantId, SYSTEM_ACTOR_ID, MetaAssigned(Some(r.value.assigneeId), true),
                      TicketAssigned(r.value.assigneeId, t.tickets[k].status), s)
          && after.tickets[k] == t.tickets[k].(assigneeId := Some(r.value.assigneeId), updatedAt := s.now)
          && after.comments == t.comments && after.counters == t.counters)
  }

  lemma AutoAssignHappens(t: Tables, input: AutoAssignInput, agents: seq<Id>, s: Stamp)
    requires IsUpForAssignment(t, input, agents)
    ensures var claimed := t.(processed := t.processed + [ProcessedRow(AutoAssign, input.eventId, input.tenantId)]);
            var row, chosen := t.tickets[input.ticketId], agents[(input.ticketNumber - 1) % |agents|];
            var w := Happened(claimed, input.ticketId, row, TicketAssigned(chosen, row.status), SYSTEM_ACTOR_ID, MetaAssigned(Some(chosen), true), s);
            AutoAssigns(t, input, agents, s, Answer(Yield(w, AutoAssigned(chosen))), Left(t, Yield(w, AutoAssigned(chosen))))
  {
    var claimed := t.(processed := t.processed + [ProcessedRow(AutoAssign, input.eventId, input.tenantId)]);
    var row, chosen := t.tickets[input.ticketId], agents[(input.ticketNumber - 1) % |agents|];
    HappenedIsOneEvent(claimed, input.ticketId, row, TicketAssigned(chosen, row.status), SYSTEM_ACTOR_ID, MetaAssigned(Some(chosen), true), s);
  }

  lemma AutoAssignGrants(t: Tables, input: AutoAssignInput, agents: seq<Id>, s: Stamp)
    ensures var spec := AutoAssignTx(t, input, agents, s);
            AutoAssigns(t, input, agents, s, Answer(spec), Left(t, spec))
  {
    if IsOf(t, input.ticketId, input.tenantId) {
      TransitionsAre(t.tickets[input.ticketId].status, Open);
      if IsUpForAssignment(t, input, agents) { AutoAssignHappens(t, input, agents, s); }
    }
  }
}
