/** The nine ways a step can change the tables. Every command is classified into one of them once, so
    that each invariant has nine small cases to look at and no use case.
 */
module Changes {
  import opened Kernel
  import opened TicketDomain
  import opened SlaPolicy
  import opened Tables
  import opened Persistence
  import opened TicketAggregate
  import opened TicketTransactions
  import opened SlaTransactions
  import opened Consumers
  import opened Machine
  import SlaTimer

  datatype Change =
    | Nothing
    | NewTicket(id: Id, row: TicketRow, entry: AuditEntry, m: Message)
    | TicketEvent(id: Id, entry: AuditEntry, m: Message, claim: Option<Message>, comments: map<Id, CommentRow>)
    | ClaimOnly(consumer: Consumer, job: Message)
    | StartClocks(job: Message, target: SlaTarget, responseId: Id, resolutionId: Id)
    | StopClock(kind: SlaKind, job: Message, timerId: Id)
    | BreachClock(timerId: Id, at: Time, entry: AuditEntry, m: Message)
    | SetPolicy(tenantId: Id, priority: Priority, target: SlaTarget, entry: AuditEntry)
    | DropPolicy(tenantId: Id, priority: Priority, entry: AuditEntry)

  function ClaimRow(consumer: Consumer, job: Message): ProcessedRow {
    ProcessedRow(consumer, job.id, job.event.tenantId)
  }

  function Applied(t: Tables, ch: Change): Tables
    requires ch.StopClock? || ch.BreachClock? ==> ch.timerId in t.timers
    requires ch.TicketEvent? ==> ch.id in t.tickets
  {
    match ch
    case Nothing => t
    case NewTicket(id, row, entry, m) =>
      Reserved(t, row.tenantId).(tickets := t.tickets[id := row], audit := t.audit + [entry], outbox := t.outbox + [m])
    case TicketEvent(id, entry, m, claim, comments) =>
      t.(tickets := t.tickets[id := Evolved(t.tickets[id], m.event)], audit := t.audit + [entry], outbox := t.outbox + [m],
         comments := comments,
         processed := if claim.Some? then t.processed + [ClaimRow(AutoAssign, claim.value)] else t.processed)
    case ClaimOnly(consumer, job) =>
      t.(processed := t.processed + [ClaimRow(consumer, job)])
    case StartClocks(job, target, responseId, resolutionId) =>
      t.(processed := t.processed + [ClaimRow(SlaStart, job)],
         timers := t.timers[responseId := SlaTimer.Started(job.event.tenantId, job.event.aggregateId, Response, target.responseMinutes, job.event.occurredAt)]
                           [resolutionId := SlaTimer.Started(job.event.tenantId, job.event.aggregateId, Resolution, target.resolutionMinutes, job.event.occurredAt)])
    case StopClock(kind, job, timerId) =>
      t.(processed := t.processed + [ClaimRow(SlaStop(kind), job)],
         timers := t.timers[timerId := t.timers[timerId].(stoppedAt := Some(job.event.occurredAt))])
    case BreachClock(timerId, at, entry, m) =>
      t.(timers := t.timers[timerId := t.timers[timerId].(breachedAt := Some(at))], audit := t.audit + [entry], outbox := t.outbox + [m])
    case SetPolicy(tenantId, priority, target, entry) =>
      t.(policies := t.policies[(tenantId, priority) := target], audit := t.audit + [entry])
    case DropPolicy(tenantId, priority, entry) =>
      t.(policies := t.policies - {(tenantId, priority)}, audit := t.audit + [entry])
  }

  /** An audit entry and an event of the same ticket that tell the same thing, under a new message id. */
  predicate Logged(t: Tables, id: Id, entry: AuditEntry, m: Message) {
    && entry.entity == TicketEntity(id)
    && m.event.aggregateId == id
    && Tells(entry, m.event)
    && FindMessage(t.outbox, m.id).None?
  }

  /** A first claim, by the consumer this job is for. */
  predicate FirstClaim(t: Tables, consumer: Consumer, job: Message) {
    && job in t.outbox
    && !Claimed(t.processed, consumer, job.id)
    && (KeyOf(TicketRoutingAction(job)) == Some((consumer, job.id)) || KeyOf(SlaAction(job)) == Some((consumer, job.id)))
  }

  /** A comment is stored with the event that tells it, under a new id; no other event stores one. */
  predicate CommentStored(before: map<Id, CommentRow>, after: map<Id, CommentRow>, event: DomainEvent) {
    match event.payload
    case CommentAdded(commentId, authorId, _) =>
      && commentId !in before && commentId in after
      && after == before[commentId := after[commentId]]
      && after[commentId] == CommentRow(event.tenantId, event.aggregateId, authorId, after[commentId].body, event.occurredAt)
      && 1 <= |after[commentId].body| <= BODY_MAX
    case _ => after == before
  }

  ghost predicate Sound(t: Tables, ch: Change) {
    match ch
    case Nothing => true
    case NewTicket(id, row, entry, m) =>
      && id !in t.tickets
      && row.number == NextNumber(t.counters, row.tenantId)
      && Announced(m.event) == Some(row.(description := []))
      && Logged(t, id, entry, m)
    case TicketEvent(id, entry, m, claim, comments) =>
      && id in t.tickets
      && Follows(t.tickets[id], m.event)
      && CommentStored(t.comments, comments, m.event)
      && !m.event.payload.SlaBreached?
      && Logged(t, id, entry, m)
      && (claim.Some? ==> FirstClaim(t, AutoAssign, claim.value) && claim.value.event.aggregateId == id)
    case ClaimOnly(consumer, job) =>
      && FirstClaim(t, consumer, job)
      && consumer != SlaStart
      && (consumer.SlaStop? ==> forall id :: !RunningTimer(t, job.event.tenantId, job.event.aggregateId, consumer.kind, id))
    case StartClocks(job, target, responseId, resolutionId) =>
      && FirstClaim(t, SlaStart, job)
      && job.event.payload.TicketCreated?
      && target == ResolvePolicy(OverridesOf(t.policies, job.event.tenantId)).At(job.event.payload.priority)
      && CanStart(t, job.event.aggregateId)
      && responseId !in t.timers && resolutionId !in t.timers && responseId != resolutionId
    case StopClock(kind, job, timerId) =>
      && FirstClaim(t, SlaStop(kind), job)
      && RunningTimer(t, job.event.tenantId, job.event.aggregateId, kind, timerId)
    case BreachClock(timerId, at, entry, m) =>
      && timerId in t.timers
      && SlaTimer.IsOverdue(t.timers[timerId], at)
      && var timer := t.timers[timerId];
      && timer.ticketId in t.tickets
      && Follows(t.tickets[timer.ticketId], m.event)
      && m.event.occurredAt == at
      && m.event.payload.SlaBreached?
      && m.event.payload.timerId == timerId && m.event.payload.kind == timer.kind && m.event.payload.dueAt == timer.dueAt
      && Logged(t, timer.ticketId, entry, m)
    case SetPolicy(tenantId, priority, target, entry) =>
      && ValidTarget(target)
      && entry.entity == SlaPolicyEntity(tenantId)
      && entry.metadata == MetaPolicy(priority, EffectiveAt(OverridesOf(t.policies, tenantId), priority), target, false)
    case DropPolicy(tenantId, priority, entry) =>
      && (tenantId, priority) in t.policies
      && entry.entity == SlaPolicyEntity(tenantId)
      && entry.metadata == MetaPolicy(priority, EffectiveAt(OverridesOf(t.policies, tenantId), priority), DEFAULT_SLA_POLICY.At(priority), true)
  }

  // --------------------------------------------------------- classification

  ghost function InsertChange(id: Id, row: TicketRow, actorId: Id, s: Stamp): Change {
    NewTicket(id, row, OpeningEntry(id, row, actorId, s.now), Message(s.eventId, OpeningEvent(id, row), s.requestId))
  }

  lemma ClassifyInsert(t: Tables, id: Id, row: TicketRow, actorId: Id, s: Stamp)
    requires id !in t.tickets
    requires row.number == NextNumber(t.counters, row.tenantId) && row.status == Open && row.createdAt == row.updatedAt == s.now
    requires row.assigneeId == None && row.resolvedAt == None && row.closedAt == None && row.requesterId == actorId
    ensures var r := Inserted(Reserved(t, row.tenantId), id, row, actorId, s);
            r.Ok? ==> Sound(t, InsertChange(id, row, actorId, s)) && r.value == Applied(t, InsertChange(id, row, actorId, s))
  {
  }

  ghost function CreateChange(t: Tables, input: CreateTicketInput, ticketId: Id, s: Stamp): Change {
    if CreateTicketTx(t, input, ticketId, s).Ok?
    then
      var number := NextNumber(t.counters, input.tenantId);
      var row := Opened(input.tenantId, number, input.subject, input.description, input.priority, input.actorId, s.now);
      InsertChange(ticketId, row, input.actorId, s)
    else Nothing
  }

  lemma ClassifyCreate(t: Tables, input: CreateTicketInput, ticketId: Id, s: Stamp)
    requires ticketId !in t.tickets
    ensures Sound(t, CreateChange(t, input, ticketId, s))
    ensures Outcome(t, CreateTicketTx(t, input, ticketId, s)) == Applied(t, CreateChange(t, input, ticketId, s))
  {
    var row := Opened(input.tenantId, NextNumber(t.counters, input.tenantId), input.subject, input.description, input.priority, input.actorId, s.now);
    ClassifyInsert(t, ticketId, row, input.actorId, s);
  }

  /** The change behind `Happened`, for anything but a breach. */
  ghost function EventChange(t: Tables, id: Id, row: TicketRow, payload: Payload, actorId: Id, metadata: Metadata, s: Stamp,
                             claim: Option<Message>, comments: map<Id, CommentRow>): Change
  {
    TicketEvent(id, AuditEntry(row.tenantId, actorId, NameOf(payload), TicketEntity(id), metadata, s.now),
                Message(s.eventId, EventAt(id, row.tenantId, s.now, payload), s.requestId), claim, comments)
  }

  lemma ClassifyHappened(t: Tables, id: Id, row: TicketRow, payload: Payload, actorId: Id, metadata: Metadata, s: Stamp,
                         claim: Option<Message>, comments: map<Id, CommentRow>)
    requires id in t.tickets && t.tickets[id] == row
    requires var event := EventAt(id, row.tenantId, s.now, payload);
             && Follows(row, event) && !payload.SlaBreached? && CommentStored(t.comments, comments, event)
             && Tells(AuditEntry(row.tenantId, actorId, NameOf(payload), TicketEntity(id), metadata, s.now), event)
    requires claim.Some? ==> FirstClaim(t, AutoAssign, claim.value) && claim.value.event.aggregateId == id
    ensures var before := t.(comments := comments, processed := if claim.Some? then t.processed + [ClaimRow(AutoAssign, claim.value)] else t.processed);
            var r := Happened(before, id, row, payload, actorId, metadata, s);
            var ch := EventChange(t, id, row, payload, actorId, metadata, s, claim, comments);
            r.Ok? ==> Sound(t, ch) && r.value == Applied(t, ch)
  {
  }

  ghost function ChangeStatusChange(t: Tables, input: ChangeStatusInput, s: Stamp): Change {
    var r := ChangeStatusTx(t, input, s);
    if r.Ok? && t.tickets[input.ticketId].status != input.status then
      var row := t.tickets[input.ticketId];
      EventChange(t, input.ticketId, row, TicketStatusChanged(row.status, input.status, row.assigneeId),
                  input.actorId, MetaStatusChanged(row.status, input.status), s, None, t.comments)
    else Nothing
  }

  lemma ClassifyChangeStatus(t: Tables, input: ChangeStatusInput, s: Stamp)
    ensures Sound(t, ChangeStatusChange(t, input, s))
    ensures Outcome(t, ChangeStatusTx(t, input, s)) == Applied(t, ChangeStatusChange(t, input, s))
  {
  }

  ghost function AssignChange(t: Tables, input: AssignTicketInput, members: set<Id>, s: Stamp): Change {
    if AssignTicketTx(t, input, members, s).Ok? then
      var row := t.tickets[input.ticketId];
      EventChange(t, input.ticketId, row, if input.assigneeId.Some? then TicketAssigned(input.assigneeId.value, row.status) else TicketUnassigned(row.status),
                  input.actorId, MetaAssigned(input.assigneeId, false), s, None, t.comments)
    else Nothing
  }

  lemma ClassifyAssign(t: Tables, input: AssignTicketInput, members: set<Id>, s: Stamp)
    ensures Sound(t, AssignChange(t, input, members, s))
    ensures Outcome(t, AssignTicketTx(t, input, members, s)) == Applied(t, AssignChange(t, input, members, s))
  {
  }

  ghost function CommentChange(t: Tables, input: AddCommentInput, commentId: Id, s: Stamp): Change {
    if AddCommentTx(t, input, commentId, s).Ok? then
      EventChange(t, input.ticketId, t.tickets[input.ticketId], CommentAdded(commentId, input.actorId, input.actorRole),
                  input.actorId, MetaComment(commentId), s, None,
                  t.comments[commentId := CommentRow(input.tenantId, input.ticketId, input.actorId, Trim(input.body), s.now)])
    else Nothing
  }

  lemma ClassifyComment(t: Tables, input: AddCommentInput, commentId: Id, s: Stamp)
    ensures Sound(t, CommentChange(t, input, commentId, s))
    ensures Outcome(t, AddCommentTx(t, input, commentId, s)) == Applied(t, CommentChange(t, input, commentId, s))
  {
    if AddCommentTx(t, input, commentId, s).Ok? {
      ClassifyHappened(t, input.ticketId, t.tickets[input.ticketId], CommentAdded(commentId, input.actorId, input.actorRole),
                  input.actorId, MetaComment(commentId), s, None,
                       t.comments[commentId := CommentRow(input.tenantId, input.ticketId, input.actorId, Trim(input.body), s.now)]);
    }
  }

  ghost function AutoAssignChange(t: Tables, job: Message, input: AutoAssignInput, agents: seq<Id>, s: Stamp): Change {
    match AutoAssignTx(t, input, agents, s)
    case Err(_) => Nothing
    case Ok((_, AlreadyProcessed)) => Nothing
    case Ok((_, AutoAssigned(chosen))) =>
      var row := t.tickets[input.ticketId];
      EventChange(t, input.ticketId, row, TicketAssigned(chosen, row.status), SYSTEM_ACTOR_ID, MetaAssigned(Some(chosen), true), s, Some(job), t.comments)
    case Ok((_, _)) => ClaimOnly(AutoAssign, job)
  }

  lemma ClassifyAutoAssign(t: Tables, job: Message, input: AutoAssignInput, agents: seq<Id>, s: Stamp)
    requires job in t.outbox && TicketRoutingAction(job) == RunAutoAssign(input)
    ensures Sound(t, AutoAssignChange(t, job, input, agents, s))
    ensures Outcome(t, AutoAssignTx(t, input, agents, s)) == Applied(t, AutoAssignChange(t, job, input, agents, s))
  {
  }

  ghost function StartChange(t: Tables, job: Message, input: StartSlaInput, responseId: Id, resolutionId: Id): Change {
    match StartSlaTx(t, input, responseId, resolutionId)
    case Ok((_, SlaStarted(_))) => StartClocks(job, ResolvePolicy(OverridesOf(t.policies, input.tenantId)).At(input.priority), responseId, resolutionId)
    case _ => Nothing
  }

  lemma ClassifyStart(t: Tables, job: Message, input: StartSlaInput, responseId: Id, resolutionId: Id)
    requires job in t.outbox && SlaAction(job) == RunStartSla(input)
    requires responseId !in t.timers && resolutionId !in t.timers && responseId != resolutionId
    ensures Sound(t, StartChange(t, job, input, responseId, resolutionId))
    ensures Outcome(t, StartSlaTx(t, input, responseId, resolutionId)) == Applied(t, StartChange(t, job, input, responseId, resolutionId))
  {
  }

  ghost function StopChange(t: Tables, job: Message, input: StopSlaInput): Change {
    match StopSlaTx(t, input)
    case Ok((_, SlaStopped(_))) => StopClock(input.kind, job, RunningOf(t, input.tenantId, input.ticketId, input.kind).value)
    case Ok((_, NoRunningTimer)) => ClaimOnly(SlaStop(input.kind), job)
    case _ => Nothing
  }

  lemma ClassifyStop(t: Tables, job: Message, input: StopSlaInput)
    requires job in t.outbox && SlaAction(job) == RunStopSla(input)
    ensures Sound(t, StopChange(t, job, input))
    ensures Outcome(t, StopSlaTx(t, input)) == Applied(t, StopChange(t, job, input))
  {
  }

  ghost function BreachChange(t: Tables, input: MarkBreachedInput, s: Stamp): Change {
    match MarkBreachedTx(t, input, s)
    case Ok((_, MarkedBreached(_))) =>
      var timer := t.timers[input.timerId];
      var row := t.tickets[timer.ticketId];
      BreachClock(input.timerId, s.now,
                  AuditEntry(row.tenantId, SYSTEM_ACTOR_ID, NameBreached, TicketEntity(timer.ticketId), MetaBreached(input.timerId, timer.kind, timer.dueAt), s.now),
                  Message(s.eventId,
                          EventAt(timer.ticketId, row.tenantId, s.now, SlaBreached(input.timerId, timer.kind, timer.dueAt, row.assigneeId, row.priority)),
                          s.requestId))
    case _ => Nothing
  }

  lemma ClassifyBreach(t: Tables, input: MarkBreachedInput, s: Stamp)
    ensures Sound(t, BreachChange(t, input, s))
    ensures Outcome(t, MarkBreachedTx(t, input, s)) == Applied(t, BreachChange(t, input, s))
  {
  }

  ghost function UpdateChange(t: Tables, input: UpdatePolicyInput, now: Time): Change {
    match MakeSlaTarget(input.responseMinutes, input.resolutionMinutes)
    case Err(_) => Nothing
    case Ok(target) =>
      SetPolicy(input.tenantId, input.priority, target,
                PolicyEntry(input.tenantId, input.actorId,
                            MetaPolicy(input.priority, EffectiveAt(OverridesOf(t.policies, input.tenantId), input.priority), target, false), now))
  }

  ghost function ResetChange(t: Tables, input: ResetPolicyInput, now: Time): Change {
    if (input.tenantId, input.priority) in t.policies then
      DropPolicy(input.tenantId, input.priority,
                 PolicyEntry(input.tenantId, input.actorId,
                             MetaPolicy(input.priority, EffectiveAt(OverridesOf(t.policies, input.tenantId), input.priority), DEFAULT_SLA_POLICY.At(input.priority), true), now))
    else Nothing
  }

  lemma ClassifyPolicy(t: Tables, update: UpdatePolicyInput, reset: ResetPolicyInput, now: Time)
    ensures Sound(t, UpdateChange(t, update, now))
    ensures Outcome(t, UpdatePolicyTx(t, update, now)) == Applied(t, UpdateChange(t, update, now))
    ensures Sound(t, ResetChange(t, reset, now))
    ensures Outcome(t, ResetPolicyTx(t, reset, now)) == Applied(t, ResetChange(t, reset, now))
  {
  }

  ghost function DeliveryChange(t: Tables, job: Message, action: Action, with: Surroundings): Change {
    match action
    case RunAutoAssign(input) => AutoAssignChange(t, job, input, with.agents, with.stamp)
    case RunStartSla(input) => StartChange(t, job, input, with.responseId, with.resolutionId)
    case RunStopSla(input) => StopChange(t, job, input)
    case _ => Nothing
  }

  ghost function ChangeOf(t: Tables, c: Command): Change {
    match c
    case Create(input, ticketId, s) => CreateChange(t, input, ticketId, s)
    case ChangeStatus(input, s) => ChangeStatusChange(t, input, s)
    case Assign(input, members, s) => AssignChange(t, input, members, s)
    case Comment(input, commentId, s) => CommentChange(t, input, commentId, s)
    case Deliver(queue, job, with) => DeliveryChange(t, job, ActionFor(queue, job), with)
    case Breach(input, s) => BreachChange(t, input, s)
    case UpdatePolicy(input, at) => UpdateChange(t, input, at)
    case ResetPolicy(input, at) => ResetChange(t, input, at)
  }

  /** Whatever command commits, the tables change in one of the nine ways. */
  lemma Classify(t: Tables, c: Command)
    requires Enabled(t, c)
    ensures Sound(t, ChangeOf(t, c))
    ensures Exec(t, c) == Applied(t, ChangeOf(t, c))
  {
    match c
    case Create(input, ticketId, s) => ClassifyCreate(t, input, ticketId, s);
    case ChangeStatus(input, s) => ClassifyChangeStatus(t, input, s);
    case Assign(input, members, s) => ClassifyAssign(t, input, members, s);
    case Comment(input, commentId, s) => ClassifyComment(t, input, commentId, s);
    case Deliver(queue, job, with) =>
      match ActionFor(queue, job) {
        case RunAutoAssign(input) => ClassifyAutoAssign(t, job, input, with.agents, with.stamp);
        case RunStartSla(input) => ClassifyStart(t, job, input, with.responseId, with.resolutionId);
        case RunStopSla(input) => ClassifyStop(t, job, input);
        case Ignore =>
        case Discard =>
      }
    case Breach(input, s) => ClassifyBreach(t, input, s);
    case UpdatePolicy(input, at) => ClassifyPolicy(t, input, ResetPolicyInput(0, 0, Low), at);
    case ResetPolicy(input, at) => ClassifyPolicy(t, UpdatePolicyInput(0, 0, Low, 0.0, 0.0), input, at);
  }
}
