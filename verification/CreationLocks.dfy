/** Ticket creations at the grain of their statements: transactions that interleave, that wait for the
    lock on their tenant's counter row, hold it until they end, and may end by aborting at any point.
    Every run of this machine comes down to a run of whole transactions, in commit order.
 */
module CreationLocks {
  import opened Kernel
  import opened TicketDomain
  import opened Tables
  import opened Persistence
  import opened TicketAggregate
  import opened TicketTransactions
  import opened SlaTransactions
  import opened Consumers
  import opened Machine
  import opened Changes
  import opened Numbering
  import opened Invariants

  /** An open creation: what it was asked and what it has written so far, which only it can see. A
      reserved number means the lock on the counter row is held. */
  datatype Creation = Creation(
    input: CreateTicketInput,
    ticketId: Id,
    stamp: Stamp,
    number: Option<TicketNumber>,
    row: Option<TicketRow>,
    entry: Option<AuditEntry>,
    message: Option<Message>)

  datatype Site = Site(db: Tables, open: map<Id, Creation>)

  const IdleSite: Site := Site(EmptyTables, map[])

  datatype Step =
    | Begin(tx: Id, input: CreateTicketInput, ticketId: Id, stamp: Stamp)
    | Reserve(tx: Id)
    | Save(tx: Id)
    | Audit(tx: Id)
    | Announce(tx: Id)
    | Commit(tx: Id)
    | Abort(tx: Id)
    | Other(command: Command)

  /** Generated ids are new, to the tables and to every open transaction. */
  predicate FreshIdsFor(s: Site, ticketId: Id, eventId: Id) {
    && ticketId !in s.db.tickets
    && FindMessage(s.db.outbox, eventId).None?
    && forall tx :: tx in s.open ==> s.open[tx].ticketId != ticketId && s.open[tx].stamp.eventId != eventId
  }

  predicate Holds(c: Creation, tenantId: Id) {
    c.input.tenantId == tenantId && c.number.Some?
  }

  /** Nobody holds the lock on this tenant's counter row. */
  predicate LockFree(open: map<Id, Creation>, tenantId: Id) {
    forall tx :: tx in open ==> !Holds(open[tx], tenantId)
  }

  /** An ordinary transaction, taken whole, that does not use an id generated by an open creation. */
  ghost predicate LeavesIdsFree(open: map<Id, Creation>, after: Tables) {
    forall tx :: tx in open ==> open[tx].ticketId !in after.tickets && FindMessage(after.outbox, open[tx].stamp.eventId).None?
  }

  /** When a step can be taken. `Save` needs what `Ticket.open` and the unique index need; a creation
      that cannot go on can only abort. */
  ghost predicate Can(s: Site, step: Step) {
    match step
    case Begin(tx, _, ticketId, stamp) => tx !in s.open && FreshIdsFor(s, ticketId, stamp.eventId)
    case Reserve(tx) => tx in s.open && s.open[tx].number.None? && LockFree(s.open, s.open[tx].input.tenantId)
    case Save(tx) =>
      && tx in s.open && s.open[tx].number.Some? && s.open[tx].row.None?
      && ValidSubject(s.open[tx].input.subject) && ValidDescription(s.open[tx].input.description)
      && !NumberTaken(s.db.tickets, s.open[tx].input.tenantId, s.open[tx].number.value)
    case Audit(tx) => tx in s.open && s.open[tx].row.Some? && s.open[tx].entry.None?
    case Announce(tx) =>
      && tx in s.open && s.open[tx].row.Some? && s.open[tx].entry.Some? && s.open[tx].message.None?
      && FindMessage(s.db.outbox, s.open[tx].stamp.eventId).None?
    case Commit(tx) => tx in s.open && s.open[tx].row.Some? && s.open[tx].entry.Some? && s.open[tx].message.Some?
    case Abort(tx) => tx in s.open
    case Other(command) => !command.Create? && Enabled(s.db, command) && LeavesIdsFree(s.open, Exec(s.db, command))
  }

  /** What a commit adds to the tables as they are by then. */
  function Committed(t: Tables, c: Creation): Tables
    requires c.row.Some? && c.entry.Some? && c.message.Some?
  {
    t.(counters := t.counters[c.input.tenantId := c.row.value.number + 1],
       tickets := t.tickets[c.ticketId := c.row.value],
       audit := t.audit + [c.entry.value],
       outbox := t.outbox + [c.message.value])
  }

  /** The ticket a creation is asked for, on the number it holds. */
  function RowOf(c: Creation): TicketRow
    requires c.number.Some?
  {
    Opened(c.input.tenantId, c.number.value, c.input.subject, c.input.description, c.input.priority, c.input.actorId, c.stamp.now)
  }

  /** What a statement of an open creation leaves written. */
  ghost function Wrote(s: Site, step: Step): Creation
    requires Can(s, step) && (step.Reserve? || step.Save? || step.Audit? || step.Announce?)
  {
    var c := s.open[step.tx];
    match step
    case Reserve(_) => c.(number := Some(NextNumber(s.db.counters, c.input.tenantId)))
    case Save(_) => c.(row := Some(RowOf(c)))
    case Audit(_) => c.(entry := Some(OpeningEntry(c.ticketId, c.row.value, c.input.actorId, c.stamp.now)))
    case Announce(_) => c.(message := Some(Message(c.stamp.eventId, OpeningEvent(c.ticketId, c.row.value), c.stamp.requestId)))
  }

  ghost function After(s: Site, step: Step): Site
    requires Can(s, step)
  {
    match step
    case Begin(tx, input, ticketId, stamp) => s.(open := s.open[tx := Creation(input, ticketId, stamp, None, None, None, None)])
    case Commit(tx) => Site(Committed(s.db, s.open[tx]), s.open - {tx})
    case Abort(tx) => s.(open := s.open - {tx})
    case Other(command) => s.(db := Exec(s.db, command))
    case _ => s.(open := s.open[step.tx := Wrote(s, step)])
  }

  // -------------------------------------------------------- the invariant

  /** What an open creation has written is what it was asked, on its number. */
  predicate WellWritten(c: Creation) {
    && (c.row.Some? ==> c.number.Some? && ValidSubject(c.input.subject) && ValidDescription(c.input.description)
                        && c.row.value == RowOf(c))
    && (c.entry.Some? ==> c.row.Some?
                          && c.entry.value == OpeningEntry(c.ticketId, c.row.value, c.input.actorId, c.stamp.now))
    && (c.message.Some? ==> c.row.Some? && c.message.value == Message(c.stamp.eventId, OpeningEvent(c.ticketId, c.row.value), c.stamp.requestId))
  }

  /** The lock excludes: at most one open creation of a tenant has a number. */
  ghost predicate OneHolder(open: map<Id, Creation>) {
    forall x, y :: x in open && y in open && x != y && open[x].number.Some? && open[y].number.Some?
                   ==> open[x].input.tenantId != open[y].input.tenantId
  }

  /** A reserved number stays the tenant's next one for as long as it is held. */
  ghost predicate HeldNumbers(open: map<Id, Creation>, counters: map<Id, TicketNumber>) {
    forall tx :: tx in open && open[tx].number.Some? ==> open[tx].number.value == NextNumber(counters, open[tx].input.tenantId)
  }

  ghost predicate IdsApart(open: map<Id, Creation>) {
    forall x, y :: x in open && y in open && x != y ==> open[x].ticketId != open[y].ticketId && open[x].stamp.eventId != open[y].stamp.eventId
  }

  /** Who holds what, seen from the tables. */
  ghost predicate Coherent(open: map<Id, Creation>, db: Tables) {
    && OneHolder(open)
    && HeldNumbers(open, db.counters)
    && IdsApart(open)
    && LeavesIdsFree(open, db)
  }

  ghost predicate AllWellWritten(open: map<Id, Creation>) {
    forall tx :: tx in open ==> WellWritten(open[tx])
  }

  ghost predicate SiteInv(s: Site) {
    AllWellWritten(s.open) && Coherent(s.open, s.db)
  }

  // -------------------------------------------------------- the refinement

  lemma RequestsLeaveCounters(t: Tables, c: Command)
    requires c.ChangeStatus? || c.Assign?
    ensures Exec(t, c).counters == t.counters
  {
  }

  lemma CommentsLeaveCounters(t: Tables, input: AddCommentInput, commentId: Id, stamp: Stamp)
    ensures Outcome(t, AddCommentTx(t, input, commentId, stamp)).counters == t.counters
  {
    TrimmedLeavesCounters(t, input.(body := Trim(input.body)), commentId, stamp);
  }

  lemma TrimmedLeavesCounters(t: Tables, input: AddCommentInput, commentId: Id, stamp: Stamp)
    ensures Outcome(t, AddTrimmedTx(t, input, commentId, stamp)).counters == t.counters
  {
  }

  lemma DeliveriesLeaveCounters(t: Tables, c: Command)
    requires c.Deliver?
    ensures Exec(t, c).counters == t.counters
  {
    match ActionFor(c.queue, c.job)
    case RunAutoAssign(input) => AutoAssignLeavesCounters(t, input, c.with.agents, c.with.stamp);
    case _ =>
  }

  lemma AutoAssignLeavesCounters(t: Tables, input: AutoAssignInput, agents: seq<Id>, stamp: Stamp)
    ensures Outcome(t, AutoAssignTx(t, input, agents, stamp)).counters == t.counters
  {
  }

  lemma SlaLeavesCounters(t: Tables, c: Command)
    requires c.Breach? || c.UpdatePolicy? || c.ResetPolicy?
    ensures Exec(t, c).counters == t.counters
  {
  }

  /** Only a creation moves a counter. */
  lemma OthersLeaveCounters(t: Tables, c: Command)
    requires !c.Create?
    ensures Exec(t, c).counters == t.counters
  {
    if c.Deliver? {
      DeliveriesLeaveCounters(t, c);
    } else if c.Breach? || c.UpdatePolicy? || c.ResetPolicy? {
      SlaLeavesCounters(t, c);
    } else if c.Comment? {
      CommentsLeaveCounters(t, c.comment, c.commentId, c.stamp);
    } else {
      RequestsLeaveCounters(t, c);
    }
  }

  lemma InsertedIs(t: Tables, c: Creation)
    requires c.row.Some? && c.entry.Some? && c.message.Some?
    requires var row := c.row.value;
             && row.tenantId == c.input.tenantId && row.number == NextNumber(t.counters, row.tenantId) && !NumberTaken(t.tickets, row.tenantId, row.number)
             && c.entry.value == OpeningEntry(c.ticketId, row, c.input.actorId, c.stamp.now)
             && c.message.value == Message(c.stamp.eventId, OpeningEvent(c.ticketId, row), c.stamp.requestId) && FindMessage(t.outbox, c.stamp.eventId).None?
    ensures Yield(Inserted(Reserved(t, c.input.tenantId), c.ticketId, c.row.value, c.input.actorId, c.stamp), c.ticketId) == Ok((Committed(t, c), c.ticketId))
  {
  }

  /** A commit is the whole creation, done at once on the tables as they are when it commits. */
  lemma CommitIsCreate(s: Site, tx: Id)
    requires SiteInv(s) && Can(s, Commit(tx)) && Gapless(s.db.tickets, s.db.counters)
    ensures var c := s.open[tx];
            && Enabled(s.db, Create(c.input, c.ticketId, c.stamp))
            && CreateTicketTx(s.db, c.input, c.ticketId, c.stamp) == Ok((Committed(s.db, c), c.ticketId))
  {
    var c := s.open[tx];
    assert WellWritten(c) && tx in s.open;
    NextIsFree(s.db, c.input.tenantId);
    CreateCommits(s.db, c);
  }

  lemma NextIsFree(t: Tables, tenantId: Id)
    requires Gapless(t.tickets, t.counters)
    ensures !NumberTaken(t.tickets, tenantId, NextNumber(t.counters, tenantId))
  {
  }

  lemma CreateInserts(t: Tables, input: CreateTicketInput, ticketId: Id, stamp: Stamp, row: TicketRow)
    requires ValidSubject(input.subject) && ValidDescription(input.description)
    requires row == Opened(input.tenantId, NextNumber(t.counters, input.tenantId), input.subject, input.description, input.priority, input.actorId, stamp.now)
    ensures CreateTicketTx(t, input, ticketId, stamp) == Yield(Inserted(Reserved(t, input.tenantId), ticketId, row, input.actorId, stamp), ticketId)
    ensures row.tenantId == input.tenantId && row.number == NextNumber(t.counters, input.tenantId)
  {
  }

  lemma CreateCommits(t: Tables, c: Creation)
    requires c.row.Some? && c.entry.Some? && c.message.Some? && WellWritten(c)
    requires c.number == Some(NextNumber(t.counters, c.input.tenantId)) && !NumberTaken(t.tickets, c.input.tenantId, c.number.value)
    requires FindMessage(t.outbox, c.stamp.eventId).None?
    ensures CreateTicketTx(t, c.input, c.ticketId, c.stamp) == Ok((Committed(t, c), c.ticketId))
  {
    CreateInserts(t, c.input, c.ticketId, c.stamp, c.row.value);
    InsertedIs(t, c);
  }

  /** While a number is held, the unique index on it cannot be hit: `Save` fails for a bad text only. */
  lemma SaveNeverClashes(s: Site, tx: Id)
    requires SiteInv(s) && Gapless(s.db.tickets, s.db.counters)
    requires tx in s.open && s.open[tx].number.Some? && s.open[tx].row.None?
    ensures Can(s, Save(tx)) <==> ValidSubject(s.open[tx].input.subject) && ValidDescription(s.open[tx].input.description)
  {
  }

  /** The transaction a step commits, if any. */
  ghost function CommandOf(s: Site, step: Step): Option<Command>
    requires Can(s, step)
  {
    match step
    case Commit(tx) => Some(Create(s.open[tx].input, s.open[tx].ticketId, s.open[tx].stamp))
    case Other(command) => Some(command)
    case _ => None
  }

  /** A step either commits one enabled command, whole, or leaves the tables as they are. */
  lemma StepIsCommand(s: Site, step: Step)
    requires SiteInv(s) && Gapless(s.db.tickets, s.db.counters) && Can(s, step)
    ensures match CommandOf(s, step)
            case Some(c) => Enabled(s.db, c) && After(s, step).db == Exec(s.db, c)
            case None => After(s, step).db == s.db
  {
    if step.Commit? {
      CommitIsCreate(s, step.tx);
    }
  }

  lemma CommitKeeps(s: Site, tx: Id)
    requires SiteInv(s) && Can(s, Commit(tx))
    ensures SiteInv(After(s, Commit(tx)))
  {
    var c := s.open[tx];
    var after := After(s, Commit(tx));
    assert WellWritten(c);
    forall x | x in after.open
      ensures after.open[x].ticketId !in after.db.tickets && FindMessage(after.db.outbox, after.open[x].stamp.eventId).None?
    {
      FindMessageAppend(s.db.outbox, c.message.value, s.open[x].stamp.eventId);
    }
  }

  lemma BeginKeeps(s: Site, step: Step)
    requires SiteInv(s) && Can(s, step) && step.Begin?
    ensures SiteInv(After(s, step))
  {
  }

  /** A statement of an open creation writes what the creation was asked to. */
  lemma WritesWell(s: Site, step: Step)
    requires SiteInv(s) && Can(s, step) && (step.Reserve? || step.Save? || step.Audit? || step.Announce?)
    ensures WellWritten(Wrote(s, step))
  {
    assert WellWritten(s.open[step.tx]);
  }

  /** Any statement that keeps what the creation is, and takes a number only when the lock is free. */
  lemma Rewritten(open: map<Id, Creation>, db: Tables, tx: Id, c: Creation)
    requires Coherent(open, db) && tx in open
    requires c.input == open[tx].input && c.ticketId == open[tx].ticketId && c.stamp == open[tx].stamp
    requires c.number == open[tx].number || (LockFree(open, c.input.tenantId) && c.number == Some(NextNumber(db.counters, c.input.tenantId)))
    ensures Coherent(open[tx := c], db)
  {
  }

  lemma AllStayWell(open: map<Id, Creation>, tx: Id, c: Creation)
    requires AllWellWritten(open) && WellWritten(c)
    ensures AllWellWritten(open[tx := c])
  {
  }

  lemma StatementKeeps(s: Site, step: Step)
    requires SiteInv(s) && Can(s, step) && (step.Reserve? || step.Save? || step.Audit? || step.Announce?)
    ensures SiteInv(After(s, step))
  {
    var tx := step.tx;
    WritesWell(s, step);
    Rewritten(s.open, s.db, tx, Wrote(s, step));
    AllStayWell(s.open, tx, Wrote(s, step));
  }

  lemma OtherKeeps(s: Site, command: Command)
    requires SiteInv(s) && Can(s, Other(command))
    ensures SiteInv(After(s, Other(command)))
  {
    OthersLeaveCounters(s.db, command);
    assert HeldNumbers(s.open, Exec(s.db, command).counters);
  }

  lemma SiteStep(s: Site, step: Step)
    requires SiteInv(s) && Can(s, step)
    ensures SiteInv(After(s, step))
  {
    if step.Commit? {
      CommitKeeps(s, step.tx);
    } else if step.Other? {
      OtherKeeps(s, step.command);
    } else if step.Begin? {
      BeginKeeps(s, step);
    } else if !step.Abort? {
      StatementKeeps(s, step);
    }
  }

  // ------------------------------------------------------------------ runs

  ghost predicate CanRun(steps: seq<Step>)
    decreases |steps|, 0
  {
    |steps| > 0 ==> CanRun(steps[..|steps| - 1]) && Can(SiteAfter(steps[..|steps| - 1]), steps[|steps| - 1])
  }

  ghost function SiteAfter(steps: seq<Step>): Site
    requires CanRun(steps)
    decreases |steps|, 1
  {
    if |steps| == 0 then IdleSite else After(SiteAfter(steps[..|steps| - 1]), steps[|steps| - 1])
  }

  /** What a run has committed, in commit order. */
  ghost function History(steps: seq<Step>): seq<Command>
    requires CanRun(steps)
  {
    if |steps| == 0 then []
    else
      var init := steps[..|steps| - 1];
      match CommandOf(SiteAfter(init), steps[|steps| - 1])
      case Some(c) => History(init) + [c]
      case None => History(init)
  }

  /** Interleaved creations come down to whole transactions: the tables are those of the run of the
      commands committed so far. */
  lemma {:induction false} LocksRefine(steps: seq<Step>)
    requires CanRun(steps)
    ensures SiteInv(SiteAfter(steps))
    ensures EnabledRun(EmptyTables, History(steps)) && SiteAfter(steps).db == Run(EmptyTables, History(steps))
  {
    if |steps| > 0 {
      var init, step := steps[..|steps| - 1], steps[|steps| - 1];
      LocksRefine(init);
      var s := SiteAfter(init);
      assert Reachable(s.db);
      NumbersFollow(s.db);
      StepIsCommand(s, step);
      SiteStep(s, step);
      match CommandOf(s, step)
      case Some(c) => RunAppend(EmptyTables, History(init), c);
      case None =>
    }
  }

  lemma NumbersFollow(t: Tables)
    requires Reachable(t)
    ensures Gapless(t.tickets, t.counters)
  {
    ReachableInv(t);
  }

  /** However creations interleave and wherever they abort, the committed numbers of each tenant are
      exactly 1..n, each used once. */
  lemma GaplessUnderLocks(steps: seq<Step>, tenantId: Id) returns (n: nat)
    requires CanRun(steps)
    ensures forall m: TicketNumber :: m in NumbersOf(SiteAfter(steps).db, tenantId) <==> m <= n
    ensures var tickets := SiteAfter(steps).db.tickets;
            forall i, j :: i in tickets && j in tickets && tickets[i].tenantId == tickets[j].tenantId == tenantId && tickets[i].number == tickets[j].number
                           ==> i == j
  {
    LocksRefine(steps);
    n := NumbersAreGapless(SiteAfter(steps).db, tenantId);
  }

  /** An aborted creation gives its number back: the next one to get the lock is handed the same. */
  lemma AbortGivesBack(steps: seq<Step>, tx: Id, next: Id)
    requires CanRun(steps)
    requires var open := SiteAfter(steps).open;
             tx in open && next in open && tx != next && open[tx].number.Some? && open[next].input.tenantId == open[tx].input.tenantId
    ensures var s := SiteAfter(steps);
            && !Can(s, Reserve(next))
            && After(s, Abort(tx)).db == s.db
            && Can(After(s, Abort(tx)), Reserve(next))
            && After(After(s, Abort(tx)), Reserve(next)).open[next].number == s.open[tx].number
  {
    LocksRefine(steps);
    var s := SiteAfter(steps);
    assert Holds(s.open[tx], s.open[next].input.tenantId);
    assert s.open[next].number.None?;
    var aborted := After(s, Abort(tx));
    forall x | x in aborted.open ensures !Holds(aborted.open[x], s.open[next].input.tenantId) {
      if x == next {} else { assert s.open[x] == aborted.open[x]; }
    }
  }

  /** And a committed one does not: the next is handed the number after it. */
  lemma CommitMovesOn(steps: seq<Step>, tx: Id, next: Id)
    requires CanRun(steps) && Can(SiteAfter(steps), Commit(tx))
    requires var open := SiteAfter(steps).open;
             next in open && tx != next && open[next].input.tenantId == open[tx].input.tenantId
    ensures var s := SiteAfter(steps);
            && s.open[tx].number.Some?
            && Can(After(s, Commit(tx)), Reserve(next))
            && After(After(s, Commit(tx)), Reserve(next)).open[next].number == Some(s.open[tx].number.value + 1)
  {
    LocksRefine(steps);
    var s := SiteAfter(steps);
    assert WellWritten(s.open[tx]);
    var committed := After(s, Commit(tx));
    forall x | x in committed.open ensures !Holds(committed.open[x], s.open[next].input.tenantId) {
      assert s.open[x] == committed.open[x];
    }
  }

  /** Some statement, or the commit, can be taken at once; or the texts are not valid and it must abort. */
  ghost predicate GoesOn(s: Site, tx: Id)
    requires tx in s.open
  {
    || Can(s, Save(tx)) || Can(s, Audit(tx)) || Can(s, Announce(tx)) || Can(s, Commit(tx))
    || !ValidSubject(s.open[tx].input.subject) || !ValidDescription(s.open[tx].input.description)
  }

  /** The next statement of a creation that holds the lock; none of them waits for anybody. */
  lemma HolderGoesOn(s: Site, tx: Id)
    requires SiteInv(s) && Gapless(s.db.tickets, s.db.counters)
    requires tx in s.open && s.open[tx].number.Some?
    ensures GoesOn(s, tx)
  {
    if s.open[tx].row.None? {
      SaveNeverClashes(s, tx);
    }
  }

  /** Nobody waits for ever on a lock: whoever waits, the holder can still go on or, if what it was
      asked is not valid, has only to abort. */
  lemma NoDeadlock(steps: seq<Step>, tx: Id)
    requires CanRun(steps) && tx in SiteAfter(steps).open
    requires SiteAfter(steps).open[tx].number.None?
    ensures var s := SiteAfter(steps);
            || Can(s, Reserve(tx))
            || exists holder :: holder in s.open && holder != tx && Holds(s.open[holder], s.open[tx].input.tenantId) && GoesOn(s, holder)
  {
    LocksRefine(steps);
    var s := SiteAfter(steps);
    if !LockFree(s.open, s.open[tx].input.tenantId) {
      var holder :| holder in s.open && Holds(s.open[holder], s.open[tx].input.tenantId);
      assert Reachable(s.db);
      NumbersFollow(s.db);
      HolderGoesOn(s, holder);
    }
  }
}
