/** The database as a use case sees it: one transaction at a time over the committed tables, and the
    statements the repositories run inside it. Any statement may find the connection gone.
 */
module Persistence {
  import opened Kernel
  import opened TicketDomain
  import opened SlaPolicy
  import opened Tables

  /** The number the next ticket of this tenant gets: the counter holds it, and starts at 1. */
  function NextNumber(counters: map<Id, TicketNumber>, tenantId: Id): TicketNumber {
    if tenantId in counters then counters[tenantId] else 1
  }

  /** The tables once that number is taken. */
  function Reserved(t: Tables, tenantId: Id): Tables {
    t.(counters := t.counters[tenantId := NextNumber(t.counters, tenantId) + 1])
  }

  /** A unique index on (tenant, number). */
  predicate NumberTaken(tickets: map<Id, TicketRow>, tenantId: Id, number: TicketNumber) {
    exists id :: id in tickets && tickets[id].tenantId == tenantId && tickets[id].number == number
  }

  /** A unique index on (ticket, kind). */
  predicate KindTaken(timers: map<Id, TimerRow>, ticketId: Id, kind: SlaKind) {
    exists id :: id in timers && timers[id].ticketId == ticketId && timers[id].kind == kind
  }

  /** An insert needs a free number; an update leaves tenant, number, requester and creation date be. */
  predicate CanSaveTicket(t: Tables, id: Id, row: TicketRow) {
    id in t.tickets || !NumberTaken(t.tickets, row.tenantId, row.number)
  }

  function WithTicket(t: Tables, id: Id, row: TicketRow): Tables {
    if id in t.tickets
    then
      var was := t.tickets[id];
      t.(tickets := t.tickets[id := row.(tenantId := was.tenantId, number := was.number, requesterId := was.requesterId, createdAt := was.createdAt)])
    else t.(tickets := t.tickets[id := row])
  }

  /** An insert needs the ticket to exist and the (ticket, kind) pair to be free; an update writes the
      two outcome dates, whatever they were, and nothing else. */
  predicate CanSaveTimer(t: Tables, id: Id, row: TimerRow) {
    id in t.timers || (row.ticketId in t.tickets && !KindTaken(t.timers, row.ticketId, row.kind))
  }

  function WithTimer(timers: map<Id, TimerRow>, id: Id, row: TimerRow): map<Id, TimerRow> {
    if id in timers
    then timers[id := timers[id].(stoppedAt := row.stoppedAt, breachedAt := row.breachedAt)]
    else timers[id := row]
  }

  predicate RunningTimer(t: Tables, tenantId: Id, ticketId: Id, kind: SlaKind, id: Id) {
    && id in t.timers
    && t.timers[id].tenantId == tenantId
    && t.timers[id].ticketId == ticketId
    && t.timers[id].kind == kind
    && t.timers[id].IsRunning()
  }

  /** One batch of the outbox comes from one tenant and brings ids nobody has used. */
  predicate CanAppend(outbox: seq<Message>, records: seq<Message>) {
    && (forall i :: 0 <= i < |records| ==> records[i].event.tenantId == records[0].event.tenantId)
    && (forall i :: 0 <= i < |records| ==> FindMessage(outbox, records[i].id).None?)
    && (forall i, j :: 0 <= i < j < |records| ==> records[i].id != records[j].id)
  }

  /** How a body run inside a transaction relates to its specification: it does exactly that, or the
      connection failed on the way, which needs `flaky`. */
  ghost predicate Worked<T(!new)>(spec: Attempt<(Tables, T)>, after: Tables, r: Attempt<T>, flaky: bool) {
    || (flaky && r == Err(Threw))
    || match spec
       case Ok(done) => r == Ok(done.1) && after == done.0
       case Err(failure) => r == Err(failure)
  }

  /** How a whole use case relates to its specification: everything it writes is committed, or
      nothing is, and it says which. */
  ghost predicate Settled<T(!new)>(before: Tables, spec: Attempt<(Tables, T)>, after: Tables, r: Attempt<T>, flaky: bool) {
    || (flaky && r == Err(Threw) && after == before)
    || match spec
       case Ok(done) => r == Ok(done.1) && after == done.0
       case Err(failure) => r == Err(failure) && after == before
  }

  class Database {
    var committed: Tables
    /** The ambient transaction, if one is open: what its own statements already see. */
    var active: Option<Tables>
    /** Statements left before the connection drops; `None` for a connection that holds. */
    var faultIn: Option<nat>
    /** The request being served, read by the outbox writer. */
    var requestId: Option<Id>

    constructor (committed: Tables, faultIn: Option<nat>, requestId: Option<Id>)
      ensures this.committed == committed && active.None? && this.faultIn == faultIn && this.requestId == requestId
    {
      this.committed, active, this.faultIn, this.requestId := committed, None, faultIn, requestId;
    }

    ghost predicate Flaky()
      reads this`faultIn
    {
      faultIn.Some?
    }

    /** A statement ran (`ok` being what its constraints ask) and left the transaction seeing `after`,
        or it broke for one of the two reasons there are. */
    twostate predicate Ran(o: Done, ok: bool, after: Tables)
      reads this
    {
      && active.Some?
      && Flaky() == old(Flaky())
      && (o.Done? ==> ok && active.value == after)
      && (o.Broke? ==> !ok || old(Flaky()))
    }

    /** The wire: does this statement reach the server? */
    method Statement() returns (o: Done)
      modifies this`faultIn
      ensures Flaky() == old(Flaky())
      ensures o.Broke? ==> old(Flaky())
    {
      match faultIn
      case None =>
        o := Done;
      case Some(left) =>
        if left == 0 {
          o := Broke;
        } else {
          faultIn := Some(left - 1);
          o := Done;
        }
    }

    // ------------------------------------------------------- transactions

    /** `TransactionManager.run`, first half: no transaction is open, so one is opened. */
    method Begin()
      requires active.None?
      modifies this`active
      ensures active == Some(committed)
    {
      active := Some(committed);
    }

    /** Second half, with what `runTransactional` adds: an error result raises the rollback signal and
        comes out as that same error; anything thrown rolls back too; otherwise the commit is tried. */
    method Finish<T(!new)>(result: Attempt<T>) returns (r: Attempt<T>)
      requires active.Some?
      modifies this`active, this`committed, this`faultIn
      ensures active.None? && Flaky() == old(Flaky())
      ensures result.Err? ==> r == result && committed == old(committed)
      ensures result.Ok? ==>
                || (r == result && committed == old(active.value))
                || (r == Err(Threw) && committed == old(committed) && old(Flaky()))
    {
      r := result;
      if result.Ok? {
        var o := Statement();
        if o.Done? {
          committed := active.value;
        } else {
          r := Err(Threw);
        }
      }
      active := None;
    }

    // -------------------------------------------------------- repositories

    /** The counter upsert: the first call writes 2 and answers 1, the next ones add one. */
    method TakeNumber(tenantId: Id) returns (r: Attempt<TicketNumber>)
      requires active.Some?
      modifies this`active, this`faultIn
      ensures active.Some? && Flaky() == old(Flaky())
      ensures r.Err? ==> r == Err(Threw) && old(Flaky())
      ensures r.Ok? ==> active.value == Reserved(old(active.value), tenantId)
      ensures r.Ok? ==> r.value == NextNumber(old(active.value.counters), tenantId)
    {
      var o := Statement();
      if o.Broke? { return Err(Threw); }
      var counters := active.value.counters;
      var next := if tenantId in counters then counters[tenantId] + 1 else 2;
      active := Some(active.value.(counters := counters[tenantId := next]));
      return Ok(next - 1);
    }

    method SaveTicket(id: Id, row: TicketRow) returns (o: Done)
      requires active.Some?
      modifies this`active, this`faultIn
      ensures Ran(o, CanSaveTicket(old(active.value), id, row), WithTicket(old(active.value), id, row))
    {
      var t := active.value;
      o := Statement();
      if o.Done? {
        if CanSaveTicket(t, id, row) {
          active := Some(WithTicket(t, id, row));
        } else {
          o := Broke;
        }
      }
    }

    method FindTicketById(tenantId: Id, id: Id) returns (r: Attempt<Option<TicketRow>>)
      requires active.Some?
      modifies this`faultIn
      ensures Flaky() == old(Flaky())
      ensures r.Err? ==> r == Err(Threw) && old(Flaky())
      ensures r.Ok? ==> r.value == FindTicket(active.value.tickets, tenantId, id)
    {
      var o := Statement();
      if o.Broke? { return Err(Threw); }
      return Ok(FindTicket(active.value.tickets, tenantId, id));
    }

    method SaveComment(id: Id, row: CommentRow) returns (o: Done)
      requires active.Some?
      modifies this`active, this`faultIn
      ensures Ran(o, id !in old(active.value).comments, old(active.value).(comments := old(active.value.comments)[id := row]))
    {
      var t := active.value;
      o := Statement();
      if o.Done? {
        if id in t.comments {
          o := Broke;
        } else {
          active := Some(t.(comments := t.comments[id := row]));
        }
      }
    }

    method RecordAudit(entry: AuditEntry) returns (o: Done)
      requires active.Some?
      modifies this`active, this`faultIn
      ensures Ran(o, true, old(active.value).(audit := old(active.value.audit) + [entry]))
    {
      o := Statement();
      if o.Done? {
        active := Some(active.value.(audit := active.value.audit + [entry]));
      }
    }

    /** `OutboxWriter.append`: nothing to do for an empty batch, an exception for a batch that mixes
        tenants, one insert otherwise. */
    method AppendOutbox(records: seq<Message>) returns (o: Done)
      requires active.Some?
      modifies this`active, this`faultIn
      ensures Ran(o, CanAppend(old(active.value).outbox, records), old(active.value).(outbox := old(active.value.outbox) + records))
    {
      var t := active.value;
      if records == [] {
        assert t.outbox + records == t.outbox;
        return Done;
      }
      var i := 1;
      while i < |records|
        invariant 1 <= i <= |records|
        invariant forall j :: 0 <= j < i ==> records[j].event.tenantId == records[0].event.tenantId
      {
        if records[i].event.tenantId != records[0].event.tenantId {
          return Broke;
        }
        i := i + 1;
      }
      o := Statement();
      if o.Done? {
        if CanAppend(t.outbox, records) {
          active := Some(t.(outbox := t.outbox + records));
        } else {
          o := Broke;
        }
      }
    }

    /** Insert-or-nothing on the primary key (consumer, event): did the insert happen? */
    method Claim(consumer: Consumer, eventId: Id, tenantId: Id) returns (r: Attempt<bool>)
      requires active.Some?
      modifies this`active, this`faultIn
      ensures active.Some? && Flaky() == old(Flaky())
      ensures r.Err? ==> r == Err(Threw) && old(Flaky())
      ensures r.Ok? ==> (r.value <==> !Claimed(old(active.value).processed, consumer, eventId))
      ensures r.Ok? ==> active.value == if r.value
                                        then old(active.value).(processed := old(active.value.processed) + [ProcessedRow(consumer, eventId, tenantId)])
                                        else old(active.value)
    {
      var o := Statement();
      if o.Broke? { return Err(Threw); }
      var t := active.value;
      if Claimed(t.processed, consumer, eventId) {
        return Ok(false);
      }
      active := Some(t.(processed := t.processed + [ProcessedRow(consumer, eventId, tenantId)]));
      return Ok(true);
    }

    /** Collects the tenant's rows into a record, one row at a time. */
    method FindOverrides(tenantId: Id) returns (r: Attempt<Overrides>)
      requires active.Some?
      modifies this`faultIn
      ensures Flaky() == old(Flaky())
      ensures r.Err? ==> r == Err(Threw) && old(Flaky())
      ensures r.Ok? ==> r.value == OverridesOf(active.value.policies, tenantId)
    {
      var o := Statement();
      if o.Broke? { return Err(Threw); }
      var policies := active.value.policies;
      var rows := set key | key in policies && key.0 == tenantId;
      var overrides: Overrides := map[];
      while rows != {}
        invariant rows <= (set key | key in policies && key.0 == tenantId)
        invariant forall p :: p in overrides <==> (tenantId, p) in policies && (tenantId, p) !in rows
        invariant forall p :: p in overrides ==> overrides[p] == policies[(tenantId, p)]
        decreases rows
      {
        var key :| key in rows;
        overrides := overrides[key.1 := policies[key]];
        rows := rows - {key};
      }
      forall p: Priority ensures p in TICKET_PRIORITIES {
        assert TICKET_PRIORITIES[match p case Low => 0 case Normal => 1 case High => 2 case Urgent => 3] == p;
      }
      return Ok(overrides);
    }

    method UpsertPolicy(tenantId: Id, priority: Priority, target: SlaTarget) returns (o: Done)
      requires active.Some?
      modifies this`active, this`faultIn
      ensures Ran(o, true, old(active.value).(policies := old(active.value.policies)[(tenantId, priority) := target]))
    {
      o := Statement();
      if o.Done? {
        active := Some(active.value.(policies := active.value.policies[(tenantId, priority) := target]));
      }
    }

    method RemovePolicy(tenantId: Id, priority: Priority) returns (r: Attempt<bool>)
      requires active.Some?
      modifies this`active, this`faultIn
      ensures active.Some? && Flaky() == old(Flaky())
      ensures r.Err? ==> r == Err(Threw) && old(Flaky())
      ensures r.Ok? ==> active.value == old(active.value).(policies := old(active.value.policies) - {(tenantId, priority)})
      ensures r.Ok? ==> r.value == ((tenantId, priority) in old(active.value.policies))
    {
      var o := Statement();
      if o.Broke? { return Err(Threw); }
      var was := active.value.policies;
      active := Some(active.value.(policies := was - {(tenantId, priority)}));
      return Ok((tenantId, priority) in was);
    }

    method SaveTimer(id: Id, row: TimerRow) returns (o: Done)
      requires active.Some?
      modifies this`active, this`faultIn
      ensures Ran(o, CanSaveTimer(old(active.value), id, row), old(active.value).(timers := WithTimer(old(active.value.timers), id, row)))
    {
      var t := active.value;
      o := Statement();
      if o.Done? {
        if CanSaveTimer(t, id, row) {
          active := Some(t.(timers := WithTimer(t.timers, id, row)));
        } else {
          o := Broke;
        }
      }
    }

    method FindRunning(tenantId: Id, ticketId: Id, kind: SlaKind) returns (r: Attempt<Option<Id>>)
      requires active.Some?
      modifies this`faultIn
      ensures Flaky() == old(Flaky())
      ensures r.Err? ==> r == Err(Threw) && old(Flaky())
      ensures r.Ok? && r.value.Some? ==> RunningTimer(active.value, tenantId, ticketId, kind, r.value.value)
      ensures r.Ok? && r.value.None? ==> forall id :: !RunningTimer(active.value, tenantId, ticketId, kind, id)
    {
      var o := Statement();
      if o.Broke? { return Err(Threw); }
      var t := active.value;
      if id :| id in t.timers && RunningTimer(t, tenantId, ticketId, kind, id) {
        return Ok(Some(id));
      }
      return Ok(None);
    }

    method FindTimerById(tenantId: Id, id: Id) returns (r: Attempt<Option<TimerRow>>)
      requires active.Some?
      modifies this`faultIn
      ensures Flaky() == old(Flaky())
      ensures r.Err? ==> r == Err(Threw) && old(Flaky())
      ensures r.Ok? ==> r.value == if id in active.value.timers && active.value.timers[id].tenantId == tenantId then Some(active.value.timers[id]) else None
    {
      var o := Statement();
      if o.Broke? { return Err(Threw); }
      var timers := active.value.timers;
      return Ok(if id in timers && timers[id].tenantId == tenantId then Some(timers[id]) else None);
    }
  }
}
