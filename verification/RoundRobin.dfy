/** Stateless round robin: whatever the order of delivery, the agents of a tenant end up with the same
    number of tickets, give or take one.
 */
module RoundRobin {
  import opened Kernel
  import opened TicketDomain
  import opened Tables
  import opened Persistence
  import opened TicketTransactions
  import opened SlaTransactions
  import opened Consumers
  import opened Machine
  import opened Changes
  import opened Numbering
  import opened History
  import opened Clocks
  import opened Invariants
  import opened Quotients

  /** Nobody of this tenant assigns or unassigns by hand, nobody closes a ticket still unassigned, and its
      list of agents stays the same. Everything else goes on as it pleases. */
  predicate Undisturbed(t: Tables, c: Command, tenantId: Id, agents: seq<Id>) {
    match c
    case Assign(input, _, _) => input.tenantId != tenantId
    case ChangeStatus(input, _) =>
      input.tenantId == tenantId && input.status == Status.Closed && FindTicket(t.tickets, tenantId, input.ticketId).Some?
      ==> t.tickets[input.ticketId].assigneeId.Some?
    case Deliver(TicketRouting, job, with) => job.event.tenantId == tenantId ==> with.agents == agents
    case _ => true
  }

  ghost predicate UndisturbedRun(t: Tables, commands: seq<Command>, tenantId: Id, agents: seq<Id>) {
    |commands| > 0 ==>
      && UndisturbedRun(t, commands[..|commands| - 1], tenantId, agents)
      && Undisturbed(Run(t, commands[..|commands| - 1]), commands[|commands| - 1], tenantId, agents)
  }

  /** A ticket of the tenant is unassigned, and then neither closed nor consumed, or it is with the agent
      whose turn its number is. */
  ghost predicate InTurn(t: Tables, k: Id, agents: seq<Id>)
    requires k in t.tickets && |agents| > 0
  {
    var row := t.tickets[k];
    if row.assigneeId.None?
    then row.status != Status.Closed && forall m :: m in t.outbox && m.event.aggregateId == k ==> !Claimed(t.processed, AutoAssign, m.id)
    else row.assigneeId == Some(Turn(agents, row.number))
  }

  ghost predicate AllInTurn(t: Tables, tenantId: Id, agents: seq<Id>)
    requires |agents| > 0
  {
    forall k :: k in t.tickets && t.tickets[k].tenantId == tenantId ==> InTurn(t, k, agents)
  }

  /** The same, said of the change a step makes. */
  predicate TurnChange(t: Tables, ch: Change, tenantId: Id, agents: seq<Id>)
    requires |agents| > 0
  {
    match ch
    case TicketEvent(id, _, m, claim, _) =>
      id in t.tickets && t.tickets[id].tenantId == tenantId ==>
        (match claim
         case Some(_) =>
           && m.event.payload.TicketAssigned? && m.event.payload.assignee == Turn(agents, t.tickets[id].number)
         case None =>
           && !m.event.payload.TicketAssigned? && !m.event.payload.TicketUnassigned?
           && (m.event.payload.TicketStatusChanged? && m.event.payload.to == Status.Closed ==> t.tickets[id].assigneeId.Some?))
    case ClaimOnly(AutoAssign, job) =>
      job.event.tenantId == tenantId ==> job.event.aggregateId in t.tickets && t.tickets[job.event.aggregateId].assigneeId.Some?
    case _ => true
  }

  lemma AutoAssignTakesTurn(t: Tables, job: Message, input: AutoAssignInput, tenantId: Id, agents: seq<Id>, with: Surroundings)
    requires Inv(t) && |agents| > 0 && AllInTurn(t, tenantId, agents)
    requires job in t.outbox && TicketRoutingAction(job) == RunAutoAssign(input)
    requires job.event.tenantId == tenantId ==> with.agents == agents
    ensures TurnChange(t, AutoAssignChange(t, job, input, with.agents, with.stamp), tenantId, agents)
  {
    MessageOfTicket(t.tickets, t.audit, t.outbox, job);
    if job.event.tenantId == tenantId {
      assert InTurn(t, job.event.aggregateId, agents);
    }
  }

  lemma StepsInTurn(t: Tables, c: Command, tenantId: Id, agents: seq<Id>)
    requires Inv(t) && Enabled(t, c) && |agents| > 0 && AllInTurn(t, tenantId, agents) && Undisturbed(t, c, tenantId, agents)
    ensures TurnChange(t, ChangeOf(t, c), tenantId, agents)
  {
    match c
    case Deliver(queue, job, with) =>
      match ActionFor(queue, job) {
        case RunAutoAssign(input) => AutoAssignTakesTurn(t, job, input, tenantId, agents, with);
        case _ =>
      }
    case _ =>
  }

  /** The message whose consumption by auto-assign a change records, if it records one. */
  function ClaimedJob(ch: Change): Option<Message> {
    match ch
    case TicketEvent(_, _, _, claim, _) => claim
    case ClaimOnly(AutoAssign, job) => Some(job)
    case _ => None
  }

  /** The messages of a ticket stay unconsumed unless the change is about one of them. */
  lemma StillUnclaimed(t: Tables, ch: Change, m: Message)
    requires UniqueMessages(t.outbox) && ProcessedRight(t.processed, t.outbox) && Sound(t, ch) && m in Applied(t, ch).outbox
    requires m in t.outbox ==> !Claimed(t.processed, AutoAssign, m.id)
    requires ClaimedJob(ch).Some? ==> ClaimedJob(ch).value.event.aggregateId != m.event.aggregateId
    ensures !Claimed(Applied(t, ch).processed, AutoAssign, m.id)
  {
  }

  /** The row of a ticket of the tenant after a change: untouched in what matters here, or given to the
      agent whose turn it is. */
  lemma RowStep(t: Tables, ch: Change, tenantId: Id, agents: seq<Id>, k: Id)
    requires Sound(t, ch) && |agents| > 0 && AllInTurn(t, tenantId, agents) && TurnChange(t, ch, tenantId, agents)
    requires k in Applied(t, ch).tickets && Applied(t, ch).tickets[k].tenantId == tenantId
    ensures var row := Applied(t, ch).tickets[k];
            if row.assigneeId.None?
            then row.status != Status.Closed && (k in t.tickets ==> t.tickets[k].tenantId == tenantId && t.tickets[k].assigneeId.None?)
            else row.assigneeId == Some(Turn(agents, row.number))
  {
  }

  lemma TurnStep(t: Tables, ch: Change, tenantId: Id, agents: seq<Id>, k: Id)
    requires UniqueMessages(t.outbox) && ProcessedRight(t.processed, t.outbox) && Stories(t.tickets, t.audit, t.outbox)
    requires Sound(t, ch) && |agents| > 0 && AllInTurn(t, tenantId, agents) && TurnChange(t, ch, tenantId, agents)
    requires k in Applied(t, ch).tickets && Applied(t, ch).tickets[k].tenantId == tenantId
    ensures InTurn(Applied(t, ch), k, agents)
  {
    var after := Applied(t, ch);
    RowStep(t, ch, tenantId, agents, k);
    if after.tickets[k].assigneeId.None? {
      ClaimIsElsewhere(t, ch, tenantId, agents, k);
      forall m | m in after.outbox && m.event.aggregateId == k ensures !Claimed(after.processed, AutoAssign, m.id) {
        if m in t.outbox {
          MessageOfTicket(t.tickets, t.audit, t.outbox, m);
          assert InTurn(t, k, agents);
        }
        StillUnclaimed(t, ch, m);
      }
    }
  }

  /** A ticket left unassigned is not the one whose announcement was consumed. */
  lemma ClaimIsElsewhere(t: Tables, ch: Change, tenantId: Id, agents: seq<Id>, k: Id)
    requires Stories(t.tickets, t.audit, t.outbox)
    requires Sound(t, ch) && |agents| > 0 && TurnChange(t, ch, tenantId, agents)
    requires k in Applied(t, ch).tickets && Applied(t, ch).tickets[k].tenantId == tenantId && Applied(t, ch).tickets[k].assigneeId.None?
    ensures ClaimedJob(ch).Some? ==> ClaimedJob(ch).value.event.aggregateId != k
  {
    if ClaimedJob(ch).Some? {
      MessageOfTicket(t.tickets, t.audit, t.outbox, ClaimedJob(ch).value);
    }
  }

  lemma {:induction false} InTurnRun(commands: seq<Command>, tenantId: Id, agents: seq<Id>)
    requires |agents| > 0 && EnabledRun(EmptyTables, commands) && UndisturbedRun(EmptyTables, commands, tenantId, agents)
    ensures Inv(Run(EmptyTables, commands)) && AllInTurn(Run(EmptyTables, commands), tenantId, agents)
  {
    InvEmpty();
    InvRun(EmptyTables, commands);
    if |commands| > 0 {
      var init := commands[..|commands| - 1];
      var c := commands[|commands| - 1];
      InTurnRun(init, tenantId, agents);
      var t := Run(EmptyTables, init);
      Classify(t, c);
      StepsInTurn(t, c, tenantId, agents);
      forall k | k in Exec(t, c).tickets && Exec(t, c).tickets[k].tenantId == tenantId ensures InTurn(Exec(t, c), k, agents) {
        TurnStep(t, ChangeOf(t, c), tenantId, agents, k);
      }
    }
  }

  // ---------------------------------------------------------------- shares

  /** The tenant's tickets numbered 1..n that this agent holds. */
  ghost function HeldBy(t: Tables, tenantId: Id, n: nat, agent: Id): set<Id> {
    set k | k in t.tickets && Holds(t.tickets[k], tenantId, n, agent)
  }

  predicate Holds(row: TicketRow, tenantId: Id, n: nat, agent: Id) {
    row.tenantId == tenantId && row.number <= n && row.assigneeId == Some(agent)
  }

  /** ceil((n - j) / size), written so that it is also right when j > n. */
  function Share(n: nat, j: nat, size: nat): nat
    requires j < size
  {
    (n + size - 1 - j) / size
  }

  lemma ShareIs(n: nat, j: nat, size: nat)
    requires j < size
    ensures Share(n, j, size) == n / size + if j < n % size then 1 else 0
  {
    var q, r := n / size, n % size;
    assert n == q * size + r;
    if j < r {
      assert (q + 1) * size == q * size + size;
      QuotientIs(n + size - 1 - j, q + 1, r - 1 - j, size);
    } else {
      QuotientIs(n + size - 1 - j, q, r + size - 1 - j, size);
    }
  }
  lemma ShareGrows(n: nat, j: nat, size: nat)
    requires j < size
    ensures Share(n + 1, j, size) == Share(n, j, size) + if n % size == j then 1 else 0
  {
    ShareIs(n, j, size);
    ShareIs(n + 1, j, size);
    NextQuotient(n, size);
  }

  lemma ShareOfNone(j: nat, size: nat)
    requires j < size
    ensures Share(0, j, size) == 0
  {
  }

  lemma SharesDifferByOne(n: nat, i: nat, j: nat, size: nat)
    requires i < size && j < size
    ensures -1 <= Share(n, i, size) - Share(n, j, size) <= 1
  {
    ShareIs(n, i, size);
    ShareIs(n, j, size);
  }

  /** Every ticket numbered up to n has been auto-assigned. */
  ghost predicate AssignedUpTo(t: Tables, tenantId: Id, n: nat) {
    forall k :: k in t.tickets && t.tickets[k].tenantId == tenantId && t.tickets[k].number <= n ==> t.tickets[k].assigneeId.Some?
  }

  /** Ticket number n goes to one agent and changes nobody else's share. */
  lemma HeldByGrows(t: Tables, tenantId: Id, agents: seq<Id>, n: TicketNumber, agent: Id)
    requires Gapless(t.tickets, t.counters) && |agents| > 0 && AllInTurn(t, tenantId, agents)
    requires n < NextNumber(t.counters, tenantId) && AssignedUpTo(t, tenantId, n)
    ensures |HeldBy(t, tenantId, n, agent)| == |HeldBy(t, tenantId, n - 1, agent)| + if Turn(agents, n) == agent then 1 else 0
  {
    assert NumberTaken(t.tickets, tenantId, n);
    var k :| k in t.tickets && t.tickets[k].tenantId == tenantId && t.tickets[k].number == n;
    assert InTurn(t, k, agents);
    HeldByOneMore(t, tenantId, n, agent, k);
  }

  lemma HeldByOneMore(t: Tables, tenantId: Id, n: TicketNumber, agent: Id, k: Id)
    requires NumbersDiffer(t.tickets)
    requires k in t.tickets && t.tickets[k].tenantId == tenantId && t.tickets[k].number == n
    ensures |HeldBy(t, tenantId, n, agent)| == |HeldBy(t, tenantId, n - 1, agent)| + if t.tickets[k].assigneeId == Some(agent) then 1 else 0
  {
    var before, after := HeldBy(t, tenantId, n - 1, agent), HeldBy(t, tenantId, n, agent);
    forall x ensures x in after <==> x in before || (x == k && t.tickets[k].assigneeId == Some(agent)) {
      if x in t.tickets && x != k && t.tickets[x].tenantId == tenantId {
        assert t.tickets[x].number != n;
      }
    }
    assert after == before + if t.tickets[k].assigneeId == Some(agent) then {k} else {};
  }

  lemma TurnIs(agents: seq<Id>, n: TicketNumber, j: nat)
    requires j < |agents| && forall x, y :: 0 <= x < y < |agents| ==> agents[x] != agents[y]
    ensures Turn(agents, n) == agents[j] <==> (n - 1) % |agents| == j
  {
  }

  lemma {:induction false} ShareOf(t: Tables, tenantId: Id, agents: seq<Id>, n: nat, j: nat)
    requires Gapless(t.tickets, t.counters) && |agents| > 0 && AllInTurn(t, tenantId, agents)
    requires forall x, y :: 0 <= x < y < |agents| ==> agents[x] != agents[y]
    requires n < NextNumber(t.counters, tenantId) && AssignedUpTo(t, tenantId, n) && j < |agents|
    ensures |HeldBy(t, tenantId, n, agents[j])| == Share(n, j, |agents|)
  {
    if n == 0 {
      ShareOfNone(j, |agents|);
      assert HeldBy(t, tenantId, 0, agents[j]) == {};
    } else {
      ShareOf(t, tenantId, agents, n - 1, j);
      ShareGrows(n - 1, j, |agents|);
      TurnIs(agents, n, j);
      HeldByGrows(t, tenantId, agents, n, agents[j]);
    }
  }

  /** The announcement of every ticket numbered up to n has been consumed, in whatever order and however
      often it was delivered. */
  ghost predicate ConsumedUpTo(t: Tables, tenantId: Id, n: nat) {
    forall m :: m in t.outbox && m.event.payload.TicketCreated? && m.event.tenantId == tenantId && m.event.payload.number <= n ==> Claimed(t.processed, AutoAssign, m.id)
  }

  /** The agent at place j holds exactly ceil((n - j) / k) of the tickets 1..n. */
  lemma Balanced(commands: seq<Command>, tenantId: Id, agents: seq<Id>, n: nat, j: nat)
    requires |agents| > 0 && EnabledRun(EmptyTables, commands) && UndisturbedRun(EmptyTables, commands, tenantId, agents)
    requires forall x, y :: 0 <= x < y < |agents| ==> agents[x] != agents[y]
    requires var t := Run(EmptyTables, commands); n < NextNumber(t.counters, tenantId) && ConsumedUpTo(t, tenantId, n)
    requires j < |agents|
    ensures |HeldBy(Run(EmptyTables, commands), tenantId, n, agents[j])| == Share(n, j, |agents|)
  {
    var t := Run(EmptyTables, commands);
    InTurnRun(commands, tenantId, agents);
    forall k | k in t.tickets && t.tickets[k].tenantId == tenantId && t.tickets[k].number <= n ensures t.tickets[k].assigneeId.Some? {
      assert InTurn(t, k, agents);
      assert Story(t.tickets, t.audit, t.outbox, k);
      EventsOfMembers(t.outbox, k);
      ReplayIdentity(EventsOf(t.outbox, k));
      var m :| m in t.outbox && m.event == EventsOf(t.outbox, k)[0];
      assert m.event.aggregateId == k;
    }
    ShareOf(t, tenantId, agents, n, j);
  }

  /** So loads differ by at most one. */
  lemma LoadsDifferByOne(commands: seq<Command>, tenantId: Id, agents: seq<Id>, n: nat, i: nat, j: nat)
    requires |agents| > 0 && EnabledRun(EmptyTables, commands) && UndisturbedRun(EmptyTables, commands, tenantId, agents)
    requires forall x, y :: 0 <= x < y < |agents| ==> agents[x] != agents[y]
    requires var t := Run(EmptyTables, commands); n < NextNumber(t.counters, tenantId) && ConsumedUpTo(t, tenantId, n)
    requires i < |agents| && j < |agents|
    ensures var t := Run(EmptyTables, commands);
            -1 <= |HeldBy(t, tenantId, n, agents[i])| - |HeldBy(t, tenantId, n, agents[j])| <= 1
  {
    Balanced(commands, tenantId, agents, n, i);
    Balanced(commands, tenantId, agents, n, j);
    SharesDifferByOne(n, i, j, |agents|);
  }
}
