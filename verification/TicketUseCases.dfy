/** The ticket use cases, statement by statement inside one transaction each, against what
    `TicketTransactions` says they commit.
 */
module TicketUseCases {
  import opened Kernel
  import opened TicketDomain
  import opened Tables
  import opened Persistence
  import opened TicketAggregate
  import opened TicketTransactions
  import opened Requests

  /** The connection dropped: an exception, and nothing committed. */
  predicate NothingDone<T(==)>(r: Attempt<T>, before: Tables, after: Tables, flaky: bool) {
    flaky && r == Err(Threw) && after == before
  }

  /** `EventRecorder.record`: drains the aggregate's events into the outbox. */
  method RecordEvents(db: Database, ticket: Ticket, ids: seq<Id>) returns (o: Done)
    requires db.active.Some? && |ids| >= |ticket.domainEvents|
    modifies db`active, db`faultIn, ticket`domainEvents
    ensures ticket.domainEvents == []
    ensures var records := Numbered(old(ticket.domainEvents), ids, db.requestId);
            var before := old(db.active.value);
            db.Ran(o, CanAppend(before.outbox, records), before.(outbox := before.outbox + records))
  {
    var events := ticket.PullDomainEvents();
    if events == [] {
      assert db.active.value.outbox + [] == db.active.value.outbox;
      return Done;
    }
    o := db.AppendOutbox(Numbered(events, ids, db.requestId));
  }

  /** The three writes every change of a ticket ends with. */
  method SaveAndRecord(db: Database, ticket: Ticket, ghost before: TicketRow, payload: Payload, actorId: Id, metadata: Metadata, now: Time, eventId: Id)
    returns (o: Done)
    requires db.active.Some?
    requires ticket.id in db.active.value.tickets && db.active.value.tickets[ticket.id] == before
    requires ticket.domainEvents == [EventAt(ticket.id, before.tenantId, now, payload)]
    requires ticket.props == Evolved(before, EventAt(ticket.id, before.tenantId, now, payload))
    modifies db`active, db`faultIn, ticket`domainEvents
    ensures db.active.Some? && db.Flaky() == old(db.Flaky())
    ensures var spec := Happened(old(db.active.value), ticket.id, before, payload, actorId, metadata, Stamp(now, eventId, db.requestId));
            && (o.Done? ==> spec == Ok(db.active.value))
            && (o.Broke? ==> spec == Err(Threw) || old(db.Flaky()))
  {
    NumberedOne(ticket.domainEvents[0], eventId, db.requestId, db.active.value.outbox);
    o := db.SaveTicket(ticket.id, ticket.props);
    if o.Broke? { return; }
    o := db.RecordAudit(AuditEntry(ticket.props.tenantId, actorId, NameOf(payload), TicketEntity(ticket.id), metadata, now));
    if o.Broke? { return; }
    o := RecordEvents(db, ticket, [eventId]);
  }

  // ---------------------------------------------------------------- create

  /** The three writes a new ticket ends with. */
  method InsertAndRecord(db: Database, ticket: Ticket, actorId: Id, now: Time, eventId: Id) returns (o: Done)
    requires db.active.Some? && ticket.id !in db.active.value.tickets
    requires ticket.domainEvents == [OpeningEvent(ticket.id, ticket.props)]
    modifies db`active, db`faultIn, ticket`domainEvents
    ensures db.active.Some? && db.Flaky() == old(db.Flaky())
    ensures var spec := Inserted(old(db.active.value), ticket.id, ticket.props, actorId, Stamp(now, eventId, db.requestId));
            && (o.Done? ==> spec == Ok(db.active.value))
            && (o.Broke? ==> spec == Err(Threw) || old(db.Flaky()))
  {
    NumberedOne(ticket.domainEvents[0], eventId, db.requestId, db.active.value.outbox);
    var row := ticket.props;
    o := db.SaveTicket(ticket.id, row);
    if o.Broke? { return; }
    o := db.RecordAudit(OpeningEntry(ticket.id, row, actorId, now));
    if o.Broke? { return; }
    o := RecordEvents(db, ticket, [eventId]);
  }

  method CreateTicketBody(db: Database, input: CreateTicketInput, ticketId: Id, eventId: Id, now: Time) returns (r: Attempt<Id>)
    requires db.active.Some? && ticketId !in db.active.value.tickets
    modifies db`active, db`faultIn
    ensures db.active.Some? && db.Flaky() == old(db.Flaky())
    ensures Worked(CreateTicketTx(old(db.active.value), input, ticketId, Stamp(now, eventId, db.requestId)), db.active.value, r, old(db.Flaky()))
  {
    var number :- db.TakeNumber(input.tenantId);
    var ticket :- Ticket.OpenTicket(ticketId, input.tenantId, number, input.subject, input.description, input.priority, input.actorId, now);
    :- InsertAndRecord(db, ticket, input.actorId, now, eventId);
    return Ok(ticketId);
  }

  method CreateTicket(db: Database, input: CreateTicketInput, ticketId: Id, eventId: Id, now: Time) returns (r: Attempt<Id>)
    requires db.active.None? && ticketId !in db.committed.tickets
    modifies db`active, db`committed, db`faultIn
    ensures db.active.None?
    ensures Settled(old(db.committed), CreateTicketTx(old(db.committed), input, ticketId, Stamp(now, eventId, db.requestId)), db.committed, r, old(db.Flaky()))
    ensures NothingDone(r, old(db.committed), db.committed, old(db.Flaky())) || Creates(old(db.committed), Trimmed(input), ticketId, Stamp(now, eventId, db.requestId), r, db.committed)
  {
    CreateGrants(db.committed, input, ticketId, Stamp(now, eventId, db.requestId));
    db.Begin();
    r := CreateTicketBody(db, input, ticketId, eventId, now);
    r := db.Finish(r);
  }

  // --------------------------------------------------------- change status

  method ChangeTicketStatusBody(db: Database, input: ChangeStatusInput, eventId: Id, now: Time) returns (r: Attempt<Id>)
    requires db.active.Some?
    modifies db`active, db`faultIn
    ensures db.active.Some? && db.Flaky() == old(db.Flaky())
    ensures Worked(ChangeStatusTx(old(db.active.value), input, Stamp(now, eventId, db.requestId)), db.active.value, r, old(db.Flaky()))
  {
    var found :- db.FindTicketById(input.tenantId, input.ticketId);
    if found.None? {
      return Err(Rejected(TicketNotFound));
    }
    var ticket := new Ticket.Rehydrate(input.ticketId, found.value);
    var from := ticket.props.status;
    var _ :- ticket.ChangeStatus(input.status, now);
    if from == input.status {
      return Ok(input.ticketId);
    }
    :- SaveAndRecord(db, ticket, found.value, TicketStatusChanged(from, input.status, found.value.assigneeId),
                     input.actorId, MetaStatusChanged(from, input.status), now, eventId);
    return Ok(input.ticketId);
  }

  method ChangeTicketStatus(db: Database, input: ChangeStatusInput, eventId: Id, now: Time) returns (r: Attempt<Id>)
    requires db.active.None?
    modifies db`active, db`committed, db`faultIn
    ensures db.active.None?
    ensures Settled(old(db.committed), ChangeStatusTx(old(db.committed), input, Stamp(now, eventId, db.requestId)), db.committed, r, old(db.Flaky()))
    ensures NothingDone(r, old(db.committed), db.committed, old(db.Flaky())) || ChangesStatus(old(db.committed), input, Stamp(now, eventId, db.requestId), r, db.committed)
  {
    ChangeStatusGrants(db.committed, input, Stamp(now, eventId, db.requestId));
    db.Begin();
    r := ChangeTicketStatusBody(db, input, eventId, now);
    r := db.Finish(r);
  }

  // ---------------------------------------------------------------- assign

  method AssignTicketBody(db: Database, input: AssignTicketInput, members: set<Id>, eventId: Id, now: Time) returns (r: Attempt<Id>)
    requires db.active.Some?
    modifies db`active, db`faultIn
    ensures db.active.Some? && db.Flaky() == old(db.Flaky())
    ensures Worked(AssignTicketTx(old(db.active.value), input, members, Stamp(now, eventId, db.requestId)), db.active.value, r, old(db.Flaky()))
  {
    var found :- db.FindTicketById(input.tenantId, input.ticketId);
    if found.None? {
      return Err(Rejected(TicketNotFound));
    }
    var ticket := new Ticket.Rehydrate(input.ticketId, found.value);
    var payload: Payload;
    match input.assigneeId {
      case Some(assigneeId) =>
        if assigneeId !in members {
          return Err(Rejected(AssigneeNotFound));
        }
        payload := TicketAssigned(assigneeId, found.value.status);
        var _ :- ticket.AssignTo(assigneeId, now);
      case None =>
        payload := TicketUnassigned(found.value.status);
        var _ :- ticket.Unassign(now);
    }
    :- SaveAndRecord(db, ticket, found.value, payload, input.actorId, MetaAssigned(input.assigneeId, false), now, eventId);
    return Ok(input.ticketId);
  }

  method AssignTicket(db: Database, input: AssignTicketInput, members: set<Id>, eventId: Id, now: Time) returns (r: Attempt<Id>)
    requires db.active.None?
    modifies db`active, db`committed, db`faultIn
    ensures db.active.None?
    ensures Settled(old(db.committed), AssignTicketTx(old(db.committed), input, members, Stamp(now, eventId, db.requestId)), db.committed, r, old(db.Flaky()))
    ensures NothingDone(r, old(db.committed), db.committed, old(db.Flaky())) || Assigns(old(db.committed), input, members, Stamp(now, eventId, db.requestId), r, db.committed)
  {
    AssignGrants(db.committed, input, members, Stamp(now, eventId, db.requestId));
    db.Begin();
    r := AssignTicketBody(db, input, members, eventId, now);
    r := db.Finish(r);
  }

  // --------------------------------------------------------------- comment

  method AddCommentBody(db: Database, input: AddCommentInput, commentId: Id, eventId: Id, now: Time) returns (r: Attempt<Id>)
    requires db.active.Some?
    modifies db`active, db`faultIn
    ensures db.active.Some? && db.Flaky() == old(db.Flaky())
    ensures Worked(AddCommentTx(old(db.active.value), input, commentId, Stamp(now, eventId, db.requestId)), db.active.value, r, old(db.Flaky()))
  {
    var found :- db.FindTicketById(input.tenantId, input.ticketId);
    if found.None? {
      return Err(Rejected(TicketNotFound));
    }
    var ticket := new Ticket.Rehydrate(input.ticketId, found.value);
    if !ticket.AcceptsComments() {
      return Err(Rejected(TicketClosed));
    }
    var body := Trim(input.body);
    if |body| == 0 || |body| > BODY_MAX {
      return Err(Rejected(EmptyComment));
    }
    var comment := CommentRow(input.tenantId, input.ticketId, input.actorId, body, now);
    // The aggregate checks again; having accepted comments above, it accepts this one.
    var registered := ticket.RegisterComment(commentId, input.actorId, input.actorRole, now);
    assert registered.Ok?;
    :- db.SaveComment(commentId, comment);
    :- SaveAndRecord(db, ticket, found.value, CommentAdded(commentId, input.actorId, input.actorRole),
                     input.actorId, MetaComment(commentId), now, eventId);
    return Ok(commentId);
  }

  method AddComment(db: Database, input: AddCommentInput, commentId: Id, eventId: Id, now: Time) returns (r: Attempt<Id>)
    requires db.active.None?
    modifies db`active, db`committed, db`faultIn
    ensures db.active.None?
    ensures Settled(old(db.committed), AddCommentTx(old(db.committed), input, commentId, Stamp(now, eventId, db.requestId)), db.committed, r, old(db.Flaky()))
    ensures NothingDone(r, old(db.committed), db.committed, old(db.Flaky())) || Comments(old(db.committed), input.(body := Trim(input.body)), commentId, Stamp(now, eventId, db.requestId), r, db.committed)
  {
    CommentGrants(db.committed, input, commentId, Stamp(now, eventId, db.requestId));
    db.Begin();
    r := AddCommentBody(db, input, commentId, eventId, now);
    r := db.Finish(r);
  }

  // ----------------------------------------------------------- auto-assign

  method AutoAssignTicketBody(db: Database, input: AutoAssignInput, agents: seq<Id>, eventId: Id, now: Time) returns (r: Attempt<AutoAssignOutcome>)
    requires db.active.Some?
    modifies db`active, db`faultIn
    ensures db.active.Some? && db.Flaky() == old(db.Flaky())
    ensures Worked(AutoAssignTx(old(db.active.value), input, agents, Stamp(now, eventId, db.requestId)), db.active.value, r, old(db.Flaky()))
  {
    var firstTime :- db.Claim(AutoAssign, input.eventId, input.tenantId);
    if !firstTime {
      return Ok(AlreadyProcessed);
    }
    var found :- db.FindTicketById(input.tenantId, input.ticketId);
    if found.None? {
      return Ok(NoSuchTicket);
    }
    var ticket := new Ticket.Rehydrate(input.ticketId, found.value);
    if ticket.props.assigneeId.Some? {
      return Ok(AlreadyAssigned);
    }
    if |agents| == 0 {
      return Ok(NoAgents);
    }
    var chosen := agents[(input.ticketNumber - 1) % |agents|];
    var applied := ticket.AssignTo(chosen, now);
    if applied.Err? {
      return Ok(NotAssignable);
    }
    :- SaveAndRecord(db, ticket, found.value, TicketAssigned(chosen, found.value.status),
                     SYSTEM_ACTOR_ID, MetaAssigned(Some(chosen), true), now, eventId);
    return Ok(AutoAssigned(chosen));
  }

  method AutoAssignTicket(db: Database, input: AutoAssignInput, agents: seq<Id>, eventId: Id, now: Time) returns (r: Attempt<AutoAssignOutcome>)
    requires db.active.None?
    modifies db`active, db`committed, db`faultIn
    ensures db.active.None?
    ensures Settled(old(db.committed), AutoAssignTx(old(db.committed), input, agents, Stamp(now, eventId, db.requestId)), db.committed, r, old(db.Flaky()))
    ensures NothingDone(r, old(db.committed), db.committed, old(db.Flaky())) || AutoAssigns(old(db.committed), input, agents, Stamp(now, eventId, db.requestId), r, db.committed)
  {
    AutoAssignGrants(db.committed, input, agents, Stamp(now, eventId, db.requestId));
    db.Begin();
    r := AutoAssignTicketBody(db, input, agents, eventId, now);
    r := db.Finish(r);
  }
}
