/** The `Ticket` aggregate: it changes itself, says what happened and keeps that until it is pulled.

    Every command is specified by the event it emits: the new state is what the event turns the old
    state into (`Evolved`), and the event tells the old state as it was (`Follows`).
 */
module TicketAggregate {
  import opened Kernel
  import opened TicketDomain
  import opened Tables

  const SUBJECT_MAX: nat := 200
  const DESCRIPTION_MAX: nat := 10_000

  predicate ValidSubject(subject: Text) {
    1 <= |Trim(subject)| <= SUBJECT_MAX
  }

  predicate ValidDescription(description: Text) {
    1 <= |Trim(description)| <= DESCRIPTION_MAX
  }

  /** A ticket as it is on the day it is opened. */
  function Opened(tenantId: Id, number: TicketNumber, subject: Text, description: Text, priority: Priority, requesterId: Id, now: Time): TicketRow {
    TicketRow(tenantId, number, Trim(subject), Trim(description), Open, priority, requesterId, None, now, now, None, None)
  }

  function OpeningEvent(id: Id, row: TicketRow): DomainEvent {
    var payload := TicketCreated(row.number, row.subject, row.priority, Open, row.requesterId);
    DomainEvent(id, row.tenantId, row.createdAt, VersionOf(payload), payload)
  }

  function EventAt(id: Id, tenantId: Id, now: Time, payload: Payload): DomainEvent {
    DomainEvent(id, tenantId, now, VersionOf(payload), payload)
  }

  class Ticket {
    const id: Id
    var props: TicketRow
    var domainEvents: seq<DomainEvent>

    constructor Rehydrate(id: Id, props: TicketRow)
      ensures this.id == id && this.props == props && domainEvents == []
    {
      this.id, this.props, this.domainEvents := id, props, [];
    }

    static method OpenTicket(id: Id, tenantId: Id, number: TicketNumber, subject: Text, description: Text,
                             priority: Priority, requesterId: Id, now: Time)
      returns (r: Attempt<Ticket>)
      ensures !ValidSubject(subject) ==> r == Err(Rejected(InvalidTicketSubject))
      ensures ValidSubject(subject) && !ValidDescription(description) ==> r == Err(Rejected(InvalidTicketDescription))
      ensures r.Ok? <==> ValidSubject(subject) && ValidDescription(description)
      ensures r.Ok? ==> fresh(r.value) && r.value.id == id
                        && r.value.props == Opened(tenantId, number, subject, description, priority, requesterId, now)
                        && r.value.domainEvents == [OpeningEvent(id, r.value.props)]
      ensures r.Ok? ==> r.value.props.subject == Trim(subject) && r.value.props.description == Trim(description)
                        && r.value.props.priority == priority && r.value.props.requesterId == requesterId && r.value.props.tenantId == tenantId
      ensures r.Ok? ==> r.value.domainEvents[0].payload == TicketCreated(number, Trim(subject), priority, Open, requesterId)
    {
      var trimmed := Trim(subject);
      if |trimmed| == 0 || |trimmed| > SUBJECT_MAX {
        return Err(Rejected(InvalidTicketSubject));
      }
      var body := Trim(description);
      if |body| == 0 || |body| > DESCRIPTION_MAX {
        return Err(Rejected(InvalidTicketDescription));
      }
      var ticket := new Ticket.Rehydrate(id, TicketRow(tenantId, number, trimmed, body, Open, priority, requesterId, None, now, now, None, None));
      ticket.AddDomainEvent(now, TicketCreated(number, trimmed, priority, Open, requesterId));
      return Ok(ticket);
    }

    /** The command emitted exactly this event, the event describes the state it found, and the state
        it left is the one the event leads to. */
    twostate predicate Emitted(now: Time, payload: Payload)
      reads this
    {
      var event := EventAt(id, old(props.tenantId), now, payload);
      && Follows(old(props), event)
      && props == Evolved(old(props), event)
      && domainEvents == old(domainEvents) + [event]
    }

    method AddDomainEvent(now: Time, payload: Payload)
      modifies this`domainEvents
      ensures domainEvents == old(domainEvents) + [EventAt(id, props.tenantId, now, payload)]
    {
      domainEvents := domainEvents + [DomainEvent(id, props.tenantId, now, VersionOf(payload), payload)];
    }

    /** Hands the pending events over and forgets them, so a second pull finds nothing. */
    method PullDomainEvents() returns (events: seq<DomainEvent>)
      modifies this`domainEvents
      ensures events == old(domainEvents) && domainEvents == []
    {
      events := domainEvents;
      domainEvents := [];
    }

    method Touch(now: Time)
      modifies this`props
      ensures props == old(props).(updatedAt := now)
    {
      props := props.(updatedAt := now);
    }

    /** Life-cycle dates are derived from the status: closing keeps the date of resolution, going back
        to work forgets both. */
    method ApplyLifecycleTimestamps(next: Status, now: Time)
      modifies this`props
      ensures props == old(props).(
                resolvedAt := if next == Resolved then Some(now) else if next == Status.Closed then old(props).resolvedAt else None,
                closedAt := if next == Status.Closed then Some(now) else if next == Resolved then old(props).closedAt else None)
    {
      match next
      case Resolved =>
        props := props.(resolvedAt := Some(now));
      case Closed =>
        props := props.(closedAt := Some(now));
      case Open =>
        props := props.(resolvedAt := None, closedAt := None);
      case InProgress =>
        props := props.(resolvedAt := None, closedAt := None);
    }

    /** Asking for the status it already has is fine and does nothing at all. */
    method ChangeStatus(next: Status, now: Time) returns (r: Attempt<()>)
      modifies this
      ensures old(props.status) == next ==> r.Ok? && unchanged(this)
      ensures old(props.status) != next && !CanTransition(old(props.status), next)
              ==> r == Err(Rejected(InvalidTicketTransition)) && unchanged(this)
      ensures old(props.status) != next && CanTransition(old(props.status), next)
              ==> r.Ok? && Emitted(now, TicketStatusChanged(old(props.status), next, old(props.assigneeId)))
    {
      var current := props.status;
      if current == next {
        return Ok(());
      }
      if !CanTransition(current, next) {
        return Err(Rejected(InvalidTicketTransition));
      }
      props := props.(status := next);
      ApplyLifecycleTimestamps(next, now);
      Touch(now);
      AddDomainEvent(now, TicketStatusChanged(current, next, props.assigneeId));
      return Ok(());
    }

    method AssignTo(assigneeId: Id, now: Time) returns (r: Attempt<()>)
      modifies this
      ensures IsTerminal(old(props.status)) ==> r == Err(Rejected(TicketClosed)) && unchanged(this)
      ensures !IsTerminal(old(props.status)) ==> r.Ok? && Emitted(now, TicketAssigned(assigneeId, old(props.status)))
    {
      if IsTerminal(props.status) {
        return Err(Rejected(TicketClosed));
      }
      props := props.(assigneeId := Some(assigneeId));
      Touch(now);
      AddDomainEvent(now, TicketAssigned(assigneeId, props.status));
      return Ok(());
    }

    method Unassign(now: Time) returns (r: Attempt<()>)
      modifies this
      ensures IsTerminal(old(props.status)) ==> r == Err(Rejected(TicketClosed)) && unchanged(this)
      ensures !IsTerminal(old(props.status)) ==> r.Ok? && Emitted(now, TicketUnassigned(old(props.status)))
    {
      if IsTerminal(props.status) {
        return Err(Rejected(TicketClosed));
      }
      props := props.(assigneeId := None);
      Touch(now);
      AddDomainEvent(now, TicketUnassigned(props.status));
      return Ok(());
    }

    predicate AcceptsComments()
      reads this
    {
      !IsTerminal(props.status)
    }

    method RegisterComment(commentId: Id, authorId: Id, authorRole: string, now: Time) returns (r: Attempt<()>)
      modifies this
      ensures !old(AcceptsComments()) ==> r == Err(Rejected(TicketClosed)) && unchanged(this)
      ensures old(AcceptsComments()) ==> r.Ok? && Emitted(now, CommentAdded(commentId, authorId, authorRole))
    {
      if !AcceptsComments() {
        return Err(Rejected(TicketClosed));
      }
      Touch(now);
      AddDomainEvent(now, CommentAdded(commentId, authorId, authorRole));
      return Ok(());
    }

    method RecordSlaBreach(timerId: Id, kind: SlaKind, dueAt: Time, now: Time)
      modifies this
      ensures Emitted(now, SlaBreached(timerId, kind, dueAt, old(props.assigneeId), old(props.priority)))
    {
      AddDomainEvent(now, SlaBreached(timerId, kind, dueAt, props.assigneeId, props.priority));
    }
  }
}
