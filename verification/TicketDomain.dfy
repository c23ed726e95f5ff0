/** The vocabulary of the ticketing context: life cycle, priorities, events and where events go. */
module TicketDomain {
  import opened Kernel

  /** Visible numbers start at 1. */
  type TicketNumber = n: int | 1 <= n witness 1

  // ------------------------------------------------------------ life cycle

  datatype Status = Open | InProgress | Resolved | Closed

  datatype Priority = Low | Normal | High | Urgent

  /** The transition table, as data. */
  function AllowedTransitions(from: Status): seq<Status> {
    match from
    case Open => [InProgress, Resolved]
    case InProgress => [Resolved, Open]
    case Resolved => [Status.Closed, Open]
    case Closed => []
  }

  predicate CanTransition(from: Status, to: Status) {
    to in AllowedTransitions(from)
  }

  predicate IsTerminal(status: Status) {
    |AllowedTransitions(status)| == 0
  }

  // ---------------------------------------------------------------- events

  datatype SlaKind = Response | Resolution

  /** What an event says happened; `Unlisted` stands for any name this version does not know. */
  datatype Payload =
    | TicketCreated(number: TicketNumber, subject: Text, priority: Priority, status: Status, requesterId: Id)
    | TicketAssigned(assignee: Id, status: Status)
    | TicketUnassigned(status: Status)
    | TicketStatusChanged(from: Status, to: Status, assigneeId: Option<Id>)
    | CommentAdded(commentId: Id, authorId: Id, authorRole: string)
    | SlaBreached(timerId: Id, kind: SlaKind, dueAt: Time, assigneeId: Option<Id>, priority: Priority)
    | Unlisted(name: string)

  /** Names shared by events and audit actions. */
  datatype Name =
    | NameCreated
    | NameAssigned
    | NameUnassigned
    | NameStatusChanged
    | NameCommentAdded
    | NameBreached
    | NamePolicyChanged
    | NameUnlisted(name: string)

  function NameOf(payload: Payload): Name {
    match payload
    case TicketCreated(_, _, _, _, _) => NameCreated
    case TicketAssigned(_, _) => NameAssigned
    case TicketUnassigned(_) => NameUnassigned
    case TicketStatusChanged(_, _, _) => NameStatusChanged
    case CommentAdded(_, _, _) => NameCommentAdded
    case SlaBreached(_, _, _, _, _) => NameBreached
    case Unlisted(name) => NameUnlisted(name)
  }

  /** The payload version each event class is written with. */
  function VersionOf(payload: Payload): nat {
    if payload.CommentAdded? then 2 else 1
  }

  datatype DomainEvent = DomainEvent(
    aggregateId: Id,
    tenantId: Id,
    occurredAt: Time,
    version: nat,
    payload: Payload)

  /** A row of the outbox: the event, its message id and the request that caused it. */
  datatype Message = Message(id: Id, event: DomainEvent, requestId: Option<Id>)

  // ---------------------------------------------------------------- queues

  datatype Queue = TicketRouting | Sla | Realtime | DeadLetter

  /** `EVENT_ROUTING` with its default: an event nobody listens to goes nowhere. */
  function QueuesFor(name: Name): seq<Queue> {
    match name
    case NameCreated => [TicketRouting, Sla, Realtime]
    case NameCommentAdded => [Sla, Realtime]
    case NameStatusChanged => [Sla, Realtime]
    case NameAssigned => [Realtime]
    case NameUnassigned => [Realtime]
    case NameBreached => [Realtime]
    case NamePolicyChanged => []
    case NameUnlisted(_) => []
  }

  /** Roles that answer on behalf of the organisation. */
  const RESPONDER_ROLES: seq<string> := ["AGENT", "ADMIN"]

  predicate IsResponder(role: string) {
    role in RESPONDER_ROLES
  }
}
