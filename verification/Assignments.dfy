/** Who a ticket is assigned to, over whole runs: a person decides, the system fills in where nobody has,
    and nothing else moves an assignment.
 */
module Assignments {
  import opened Kernel
  import opened TicketDomain
  import opened Tables
  import opened Persistence
  import opened TicketTransactions
  import opened SlaTransactions
  import opened Consumers
  import opened Machine
  import opened History
  import opened Invariants
  import opened Requests

  // -------------------------------------------------------------- a delivery

  /** What a `ticket.created` job does to its ticket: the system assigns it if this is the first time, nobody
      is assigned, the ticket is not closed and there are agents; otherwise row, trail and outbox do not move. */
  ghost predicate FillsIn(t: Tables, job: Message, with: Surroundings, after: Tables) {
    var k := job.event.aggregateId;
    && k in t.tickets
    && var row := t.tickets[k];
       if IsFirstTime(t.processed, job.id) && row.assigneeId == None && row.status != Status.Closed && with.agents != [] then
         var chosen := with.agents[(row.number - 1) % |with.agents|];
         && OneEvent(t, after, k, row.tenantId, SYSTEM_ACTOR_ID, MetaAssigned(Some(chosen), true), TicketAssigned(chosen, row.status), with.stamp)
         && after.tickets[k] == row.(assigneeId := Some(chosen), updatedAt := with.stamp.now)
       else
         after.tickets == t.tickets && after.audit == t.audit && after.outbox == t.outbox
  }

  lemma JobIsOfTicket(t: Tables, job: Message)
    requires Inv(t) && job in t.outbox && TicketRouting in QueuesFor(NameOf(job.event.payload))
    ensures job.event.payload.TicketCreated? && job.event.version == 1
    ensures IsOf(t, job.event.aggregateId, job.event.tenantId) && t.tickets[job.event.aggregateId].number == job.event.payload.number
  {
    MessageOfTicket(t.tickets, t.audit, t.outbox, job);
  }

  lemma JobFillsIn(t: Tables, job: Message, with: Surroundings)
    requires job.event.payload.TicketCreated? && job.event.version == 1 && FindMessage(t.outbox, with.stamp.eventId).None?
    requires IsOf(t, job.event.aggregateId, job.event.tenantId) && t.tickets[job.event.aggregateId].number == job.event.payload.number
    ensures FillsIn(t, job, with, Exec(t, Deliver(TicketRouting, job, with)))
  {
    NewMessageIff(t.outbox, with.stamp.eventId);
    AutoAssignGrants(t, AutoAssignInput(job.id, job.event.tenantId, job.event.aggregateId, job.event.payload.number), with.agents, with.stamp);
  }

  /** An assignment made by hand wins, whenever the job is delivered. */
  lemma DeliveryFillsIn(t: Tables, job: Message, with: Surroundings)
    requires Inv(t) && Enabled(t, Deliver(TicketRouting, job, with))
    ensures FillsIn(t, job, with, Exec(t, Deliver(TicketRouting, job, with)))
  {
    JobIsOfTicket(t, job);
    JobFillsIn(t, job, with);
  }

  // ---------------------------------------------------------------- one step

  function AssigneeOf(t: Tables, k: Id): Option<Id> {
    if k in t.tickets then t.tickets[k].assigneeId else None
  }

  /** Somebody assigned this ticket to whom it is with now: a member, or nobody. */
  predicate ByHand(c: Command, k: Id, now: Option<Id>) {
    c.Assign? && c.assign.ticketId == k && c.assign.assigneeId == now && (now.Some? ==> now.value in c.members)
  }

  /** The system gave it to an agent in the course of delivering a job about it. */
  predicate ByTurn(c: Command, k: Id, now: Option<Id>) {
    c.Deliver? && c.queue == TicketRouting && c.job.event.aggregateId == k && now.Some? && now.value in c.with.agents
  }

  /** An assignment stays, or a person made it, or the system did and there was none. */
  predicate Moves(c: Command, k: Id, before: Option<Id>, now: Option<Id>) {
    now == before || ByHand(c, k, now) || (before == None && ByTurn(c, k, now))
  }

  lemma CreatedMovesNone(t: Tables, asked: CreateTicketInput, id: Id, s: Stamp, r: Attempt<Id>, after: Tables, k: Id)
    requires Creates(t, asked, id, s, r, after) && id !in t.tickets
    ensures AssigneeOf(after, k) == AssigneeOf(t, k)
  {
  }

  lemma CreateMovesNone(t: Tables, c: Command, k: Id)
    requires c.Create? && Enabled(t, c)
    ensures AssigneeOf(Exec(t, c), k) == AssigneeOf(t, k)
  {
    CreateGrants(t, c.create, c.ticketId, c.stamp);
    var spec := CreateTicketTx(t, c.create, c.ticketId, c.stamp);
    CreatedMovesNone(t, Trimmed(c.create), c.ticketId, c.stamp, Answer(spec), Left(t, spec), k);
  }

  lemma ChangeMovesNone(t: Tables, c: Command, k: Id)
    requires c.ChangeStatus?
    ensures AssigneeOf(Exec(t, c), k) == AssigneeOf(t, k)
  {
    ChangeStatusGrants(t, c.change, c.stamp);
  }

  lemma AssignMoves(t: Tables, c: Command, k: Id)
    requires c.Assign?
    ensures Moves(c, k, AssigneeOf(t, k), AssigneeOf(Exec(t, c), k))
  {
    AssignGrants(t, c.assign, c.members, c.stamp);
  }

  lemma TrimmedMovesNone(t: Tables, asked: AddCommentInput, id: Id, s: Stamp, k: Id)
    ensures AssigneeOf(Outcome(t, AddTrimmedTx(t, asked, id, s)), k) == AssigneeOf(t, k)
  {
    TrimmedGrants(t, asked, id, s);
  }

  lemma CommentMovesNone(t: Tables, c: Command, k: Id)
    requires c.Comment?
    ensures AssigneeOf(Exec(t, c), k) == AssigneeOf(t, k)
  {
    TrimmedMovesNone(t, c.comment.(body := Trim(c.comment.body)), c.commentId, c.stamp, k);
  }

  lemma RoutingMoves(t: Tables, c: Command, k: Id)
    requires c.Deliver? && c.queue == TicketRouting
    ensures Moves(c, k, AssigneeOf(t, k), AssigneeOf(Exec(t, c), k))
  {
    match TicketRoutingAction(c.job)
    case RunAutoAssign(input) => AutoAssignGrants(t, input, c.with.agents, c.with.stamp);
    case _ =>
  }

  lemma SlaMovesNone(t: Tables, c: Command)
    requires c.Deliver? && c.queue != TicketRouting
    ensures Exec(t, c).tickets == t.tickets
  {
  }

  lemma BreachMovesNone(t: Tables, c: Command)
    requires c.Breach?
    ensures Exec(t, c).tickets == t.tickets
  {
  }

  lemma PolicyMovesNone(t: Tables, c: Command)
    requires c.UpdatePolicy? || c.ResetPolicy?
    ensures Exec(t, c).tickets == t.tickets
  {
  }

  /** No transaction moves an assignment in any other way. */
  lemma StepMoves(t: Tables, c: Command, k: Id)
    requires Enabled(t, c)
    ensures Moves(c, k, AssigneeOf(t, k), AssigneeOf(Exec(t, c), k))
  {
    match c
    case Create(_, _, _) => CreateMovesNone(t, c, k);
    case ChangeStatus(_, _) => ChangeMovesNone(t, c, k);
    case Assign(_, _, _) => AssignMoves(t, c, k);
    case Comment(_, _, _) => CommentMovesNone(t, c, k);
    case Deliver(queue, _, _) => if queue == TicketRouting { RoutingMoves(t, c, k); } else { SlaMovesNone(t, c); }
    case Breach(_, _) => BreachMovesNone(t, c);
    case UpdatePolicy(_, _) => PolicyMovesNone(t, c);
    case ResetPolicy(_, _) => PolicyMovesNone(t, c);
  }

  // -------------------------------------------------------------------- runs

  /** Whom the ticket is with after each number of commands. */
  ghost function Assignees(t: Tables, commands: seq<Command>, k: Id): (list: seq<Option<Id>>)
    ensures |list| == |commands| + 1
    ensures list[0] == AssigneeOf(t, k) && list[|commands|] == AssigneeOf(Run(t, commands), k)
  {
    if |commands| == 0 then [AssigneeOf(t, k)]
    else Assignees(t, commands[..|commands| - 1], k) + [AssigneeOf(Run(t, commands), k)]
  }

  ghost predicate AllMove(commands: seq<Command>, k: Id, list: seq<Option<Id>>) {
    && |list| == |commands| + 1
    && forall i :: 0 <= i < |commands| ==> Moves(commands[i], k, list[i], list[i + 1])
  }

  lemma LastStepMoves(t: Tables, commands: seq<Command>, k: Id)
    requires EnabledRun(t, commands) && |commands| > 0
    ensures Moves(commands[|commands| - 1], k, AssigneeOf(Run(t, commands[..|commands| - 1]), k), AssigneeOf(Run(t, commands), k))
  {
    StepMoves(Run(t, commands[..|commands| - 1]), commands[|commands| - 1], k);
  }

  lemma AssigneesOn(t: Tables, commands: seq<Command>, k: Id)
    requires |commands| > 0
    ensures Assignees(t, commands, k) == Assignees(t, commands[..|commands| - 1], k) + [AssigneeOf(Run(t, commands), k)]
  {
  }

  lemma {:induction false} MoveAt(t: Tables, commands: seq<Command>, k: Id, i: nat)
    requires EnabledRun(t, commands) && i < |commands|
    ensures Moves(commands[i], k, Assignees(t, commands, k)[i], Assignees(t, commands, k)[i + 1])
  {
    AssigneesOn(t, commands, k);
    if i < |commands| - 1 {
      MoveAt(t, commands[..|commands| - 1], k, i);
    } else {
      LastStepMoves(t, commands, k);
    }
  }

  lemma RunMoves(t: Tables, commands: seq<Command>, k: Id)
    requires EnabledRun(t, commands)
    ensures AllMove(commands, k, Assignees(t, commands, k))
  {
    forall i | 0 <= i < |commands| ensures Moves(commands[i], k, Assignees(t, commands, k)[i], Assignees(t, commands, k)[i + 1]) {
      MoveAt(t, commands, k, i);
    }
  }

  lemma {:induction false} FirstMove(commands: seq<Command>, k: Id, list: seq<Option<Id>>) returns (i: nat)
    requires AllMove(commands, k, list) && list[0].Some? && list[|commands|] != list[0]
    ensures i < |commands| && list[i] == list[0] && list[i + 1] != list[0] && ByHand(commands[i], k, list[i + 1])
  {
    var n := |commands| - 1;
    if list[n] == list[0] {
      i := n;
    } else {
      i := FirstMove(commands[..n], k, list[..n + 1]);
    }
  }

  /** Over any run, an assignment that is there and then is not, or is another, was moved by hand. */
  lemma OnlyAHandMoves(t: Tables, commands: seq<Command>, k: Id) returns (i: nat)
    requires EnabledRun(t, commands) && AssigneeOf(t, k).Some? && AssigneeOf(Run(t, commands), k) != AssigneeOf(t, k)
    ensures i < |commands|
    ensures var list := Assignees(t, commands, k);
            list[i] == AssigneeOf(t, k) && list[i + 1] != AssigneeOf(t, k) && ByHand(commands[i], k, list[i + 1])
  {
    RunMoves(t, commands, k);
    i := FirstMove(commands, k, Assignees(t, commands, k));
  }

  lemma {:induction false} LastMove(commands: seq<Command>, k: Id, list: seq<Option<Id>>) returns (i: nat)
    requires AllMove(commands, k, list) && list[0] == None && list[|commands|].Some?
    ensures i < |commands| && (ByHand(commands[i], k, list[|commands|]) || (list[i] == None && ByTurn(commands[i], k, list[|commands|])))
    ensures forall j :: i < j <= |commands| ==> list[j] == list[|commands|]
  {
    var n := |commands| - 1;
    if list[n] == list[n + 1] {
      i := LastMove(commands[..n], k, list[..n + 1]);
    } else {
      i := n;
    }
  }

  /** In every reachable state whoever a ticket is with was a member somebody chose, or an agent whom a
      delivery gave a ticket nobody had; and nothing has moved it since. */
  lemma AssigneeWasChosen(commands: seq<Command>, k: Id) returns (i: nat)
    requires EnabledRun(EmptyTables, commands) && AssigneeOf(Run(EmptyTables, commands), k).Some?
    ensures var list, now := Assignees(EmptyTables, commands, k), AssigneeOf(Run(EmptyTables, commands), k);
            && i < |commands|
            && (ByHand(commands[i], k, now) || (list[i] == None && ByTurn(commands[i], k, now)))
            && forall j :: i < j <= |commands| ==> list[j] == now
  {
    RunMoves(EmptyTables, commands, k);
    i := LastMove(commands, k, Assignees(EmptyTables, commands, k));
  }
}
