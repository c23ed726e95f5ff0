/** The system as a machine: every transaction that commits is one step, and runs are sequences of
    steps in commit order. A transaction that rolls back is no step at all.
 */
module Machine {
  import opened Kernel
  import opened TicketDomain
  import opened SlaPolicy
  import opened Tables
  import opened Persistence
  import opened TicketTransactions
  import opened SlaTransactions
  import opened Consumers

  datatype Command =
    | Create(create: CreateTicketInput, ticketId: Id, stamp: Stamp)
    | ChangeStatus(change: ChangeStatusInput, stamp: Stamp)
    | Assign(assign: AssignTicketInput, members: set<Id>, stamp: Stamp)
    | Comment(comment: AddCommentInput, commentId: Id, stamp: Stamp)
    | Deliver(queue: Queue, job: Message, with: Surroundings)
    | Breach(breach: MarkBreachedInput, stamp: Stamp)
    | UpdatePolicy(update: UpdatePolicyInput, at: Time)
    | ResetPolicy(reset: ResetPolicyInput, at: Time)

  /** The committed tables after the command; a command that fails leaves them as they were. */
  ghost function Exec(t: Tables, c: Command): Tables {
    match c
    case Create(input, ticketId, s) => Outcome(t, CreateTicketTx(t, input, ticketId, s))
    case ChangeStatus(input, s) => Outcome(t, ChangeStatusTx(t, input, s))
    case Assign(input, members, s) => Outcome(t, AssignTicketTx(t, input, members, s))
    case Comment(input, commentId, s) => Outcome(t, AddCommentTx(t, input, commentId, s))
    case Deliver(queue, job, with) => Delivered(t, ActionFor(queue, job), with)
    case Breach(input, s) => Outcome(t, MarkBreachedTx(t, input, s))
    case UpdatePolicy(input, at) => Outcome(t, UpdatePolicyTx(t, input, at))
    case ResetPolicy(input, at) => Outcome(t, ResetPolicyTx(t, input, at))
  }

  /** What the surroundings guarantee: generated ids are new, and a job delivered by a queue carries an
      event of the outbox that is routed to that queue. */
  predicate Enabled(t: Tables, c: Command) {
    match c
    case Create(_, ticketId, _) => ticketId !in t.tickets
    case Deliver(queue, job, with) =>
      && job in t.outbox
      && queue in QueuesFor(NameOf(job.event.payload))
      && FindMessage(t.outbox, with.stamp.eventId).None?
      && with.responseId !in t.timers && with.resolutionId !in t.timers && with.responseId != with.resolutionId
    case _ => true
  }

  ghost function Run(t: Tables, commands: seq<Command>): Tables {
    if |commands| == 0 then t
    else Exec(Run(t, commands[..|commands| - 1]), commands[|commands| - 1])
  }

  ghost predicate EnabledRun(t: Tables, commands: seq<Command>) {
    |commands| > 0 ==>
      && EnabledRun(t, commands[..|commands| - 1])
      && Enabled(Run(t, commands[..|commands| - 1]), commands[|commands| - 1])
  }

  ghost predicate Reachable(t: Tables) {
    exists commands :: EnabledRun(EmptyTables, commands) && t == Run(EmptyTables, commands)
  }

  /** The state after any number of transactions. */
  ghost predicate Later(before: Tables, after: Tables) {
    exists commands :: EnabledRun(before, commands) && after == Run(before, commands)
  }

  lemma EmptyIsReachable()
    ensures Reachable(EmptyTables)
  {
    var none: seq<Command> := [];
    assert EnabledRun(EmptyTables, none) && Run(EmptyTables, none) == EmptyTables;
  }

  lemma ReachedBy(commands: seq<Command>)
    requires EnabledRun(EmptyTables, commands)
    ensures Reachable(Run(EmptyTables, commands))
  {
  }

  /** One more transaction leads from a reachable state to another. */
  lemma StaysReachable(t: Tables, c: Command)
    requires Reachable(t) && Enabled(t, c)
    ensures Reachable(Exec(t, c))
  {
    var commands :| EnabledRun(EmptyTables, commands) && t == Run(EmptyTables, commands);
    RunAppend(EmptyTables, commands, c);
    ReachedBy(commands + [c]);
  }

  lemma RunAppend(t: Tables, commands: seq<Command>, c: Command)
    ensures Run(t, commands + [c]) == Exec(Run(t, commands), c)
    ensures EnabledRun(t, commands + [c]) <==> EnabledRun(t, commands) && Enabled(Run(t, commands), c)
  {
    assert (commands + [c])[..|commands|] == commands;
  }
}
