/** The outbox publisher as it runs: claim a batch, enqueue message by message, mark each and commit. Every
    statement it issues is a step of the outbox machine, and it keeps the run so far as a ghost.
 */
module OutboxPublisher {
  import opened Kernel
  import opened TicketDomain
  import opened OutboxMachine
  import opened OutboxRuns

  /** `outbox_mark_failed`, as this transaction sees the table from then on. */
  function WithFailed(rows: seq<Row>, id: Id): seq<Row> {
    seq(|rows|, i requires 0 <= i < |rows| => if rows[i].message.id == id then rows[i].(attempts := rows[i].attempts + 1) else rows[i])
  }

  /** `outbox_mark_published`. */
  function WithPublished(rows: seq<Row>, ids: seq<Id>, at: Time): seq<Row> {
    seq(|rows|, i requires 0 <= i < |rows| => if rows[i].message.id in ids && rows[i].publishedAt.None? then rows[i].(publishedAt := Some(at)) else rows[i])
  }

  /** The table once the failures of a batch so far are marked. */
  ghost function WithFailures(rows: seq<Row>, b: Batch): seq<Row> {
    seq(|rows|, i requires 0 <= i < |rows| => if HasFailed(b, rows[i].message.id) then rows[i].(attempts := rows[i].attempts + 1) else rows[i])
  }

  lemma OneMoreFailure(rows: seq<Row>, b: Batch)
    requires Distinct(b.claimed) && Busy(b)
    ensures WithFailed(WithFailures(rows, b), b.claimed[|b.outcomes|].id) == WithFailures(rows, b.(outcomes := b.outcomes + [false], received := 0))
  {
  }

  lemma NoFailureYet(rows: seq<Row>, limit: nat, list: seq<Message>)
    ensures WithFailures(rows, Batch(limit, list, [], 0)) == rows
  {
  }

  lemma EnqueuedAddsNoFailure(rows: seq<Row>, b: Batch)
    requires Busy(b)
    ensures WithFailures(rows, b.(outcomes := b.outcomes + [true], received := 0)) == WithFailures(rows, b)
  {
  }

  /** `publicados` holds exactly what the batch has enqueued. */
  ghost predicate ListsEnqueued(ids: seq<Id>, b: Batch) {
    forall x :: x in ids <==> WasEnqueued(b, x)
  }

  lemma OneMoreEnqueued(ids: seq<Id>, b: Batch, outcome: bool)
    requires ListsEnqueued(ids, b) && Busy(b)
    ensures ListsEnqueued(if outcome then ids + [b.claimed[|b.outcomes|].id] else ids, b.(outcomes := b.outcomes + [outcome], received := 0))
  {
  }

  /** The marks a publisher makes one by one are what the machine's commit does at once. */
  lemma MarksAreCommit(rows: seq<Row>, b: Batch, ids: seq<Id>, maxAttempts: nat, at: Time)
    requires HoldsPending(b, rows, maxAttempts) && |b.outcomes| <= |b.claimed| && ListsEnqueued(ids, b)
    ensures WithPublished(WithFailures(rows, b), ids, at) == MarkedRows(rows, b, at)
  {
  }

  /** What a batch leaves: each row it claimed is published or has one attempt more, and no other changes. */
  ghost predicate DealtWith(before: seq<Row>, after: seq<Row>, list: seq<Message>, at: Time) {
    && |after| == |before|
    && forall i :: 0 <= i < |before| ==>
                     if before[i].message in list
                     then after[i] == before[i].(publishedAt := Some(at)) || after[i] == before[i].(attempts := before[i].attempts + 1)
                     else after[i] == before[i]
  }

  lemma CommitDealsWith(s: Sys, tx: Id, at: Time)
    requires SysInv(s) && Can(s, Commit(tx, at))
    ensures DealtWith(s.rows, After(s, Commit(tx, at)).rows, s.open[tx].claimed, at)
  {
  }

  lemma LocksLeft(open: map<Id, Batch>, tx: Id, id: Id)
    requires Exclusive(open) && tx in open
    ensures Locked(open - {tx}, id) <==> Locked(open, id) && !Holds(open[tx], id)
  {
    if Locked(open - {tx}, id) {
      var x :| x in open - {tx} && Holds((open - {tx})[x], id);
      assert Holds(open[x], id);
      var j :| 0 <= j < |open[x].claimed| && open[x].claimed[j].id == id;
      forall k | 0 <= k < |open[tx].claimed| ensures open[tx].claimed[k].id != id {
        assert open[x].claimed[j].id != open[tx].claimed[k].id;
      }
    }
    if Locked(open, id) && !Holds(open[tx], id) {
      var x :| x in open && Holds(open[x], id);
      assert x in open - {tx} && Holds((open - {tx})[x], id);
    }
  }

  lemma LocksGained(open: map<Id, Batch>, tx: Id, b: Batch, id: Id)
    requires tx !in open
    ensures Locked(open[tx := b], id) <==> Locked(open, id) || Holds(b, id)
  {
    var more := open[tx := b];
    if Locked(open, id) {
      var x :| x in open && Holds(open[x], id);
      assert x in more && Holds(more[x], id);
    }
    if Holds(b, id) { assert tx in more && Holds(more[tx], id); }
  }

  lemma LocksSame(open: map<Id, Batch>, tx: Id, b: Batch, id: Id)
    requires tx in open && b.claimed == open[tx].claimed
    ensures Locked(open[tx := b], id) <==> Locked(open, id)
  {
    var same := open[tx := b];
    if Locked(open, id) {
      var x :| x in open && Holds(open[x], id);
      if x == tx { var k :| 0 <= k < |open[x].claimed| && open[x].claimed[k].id == id; assert b.claimed[k].id == id; }
      assert x in same && Holds(same[x], id);
    }
    if Locked(same, id) {
      var x :| x in same && Holds(same[x], id);
      if x == tx { var k :| 0 <= k < |b.claimed| && b.claimed[k].id == id; assert open[tx].claimed[k].id == id; }
      assert x in open && Holds(open[x], id);
    }
  }

  function Ids(list: seq<Message>): set<Id> {
    set k | 0 <= k < |list| :: list[k].id
  }

  ghost predicate IsOldestBut(s: Sys, list: seq<Message>, m: Message) {
    && m !in list
    && (exists i :: Candidate(s, i) && s.rows[i].message == m)
    && forall i :: Candidate(s, i) && s.rows[i].message !in list ==> s.rows[i].message == m || Precedes(m, s.rows[i].message)
  }

  lemma AllPrecedeMore(s: Sys, list: seq<Message>, m: Message)
    requires IsOldestBut(s, list, m) && Sorted(list)
    requires forall i :: Candidate(s, i) ==> s.rows[i].message in list || AllPrecede(list, s.rows[i].message)
    ensures Sorted(list + [m])
    ensures forall i :: Candidate(s, i) ==> s.rows[i].message in list + [m] || AllPrecede(list + [m], s.rows[i].message)
  {
  }

  predicate AllRegistered(m: Message, registered: set<Queue>) {
    forall q :: q in QueuesOf(m) ==> q in registered
  }

  /** A message fails if one of its queues is not registered and, when no addition throws, only then. */
  ghost predicate Fair(b: Batch, registered: set<Queue>, calm: bool) {
    forall k :: 0 <= k < |b.outcomes| && k < |b.claimed| ==>
                  && (b.outcomes[k] ==> AllRegistered(b.claimed[k], registered))
                  && (calm && AllRegistered(b.claimed[k], registered) ==> b.outcomes[k])
  }

  lemma OneMoreFair(b: Batch, registered: set<Queue>, calm: bool, outcome: bool)
    requires Busy(b) && Fair(b, registered, calm)
    requires outcome ==> AllRegistered(b.claimed[|b.outcomes|], registered)
    requires calm && AllRegistered(b.claimed[|b.outcomes|], registered) ==> outcome
    ensures Fair(b.(outcomes := b.outcomes + [outcome], received := 0), registered, calm)
  {
  }

  lemma SameFailures(rows: seq<Row>, b: Batch, c: Batch)
    requires c.claimed == b.claimed && c.outcomes == b.outcomes
    ensures WithFailures(rows, c) == WithFailures(rows, b)
  {
    forall x ensures HasFailed(c, x) <==> HasFailed(b, x) {}
  }

  ghost predicate FairlyPublished(rows: seq<Row>, list: seq<Message>, registered: set<Queue>, calm: bool) {
    forall i :: 0 <= i < |rows| && rows[i].message in list ==>
                  && (rows[i].publishedAt.Some? ==> AllRegistered(rows[i].message, registered))
                  && (calm && AllRegistered(rows[i].message, registered) ==> rows[i].publishedAt.Some?)
  }

  lemma CommitIsFair(s: Sys, tx: Id, at: Time, registered: set<Queue>, calm: bool)
    requires SysInv(s) && Can(s, Commit(tx, at)) && Fair(s.open[tx], registered, calm)
    ensures FairlyPublished(After(s, Commit(tx, at)).rows, s.open[tx].claimed, registered, calm)
  {
    var b := s.open[tx];
    var rows := MarkedRows(s.rows, b, at);
    forall i | 0 <= i < |rows| && rows[i].message in b.claimed
      ensures rows[i].publishedAt.Some? ==> AllRegistered(rows[i].message, registered)
      ensures calm && AllRegistered(rows[i].message, registered) ==> rows[i].publishedAt.Some?
    {
      var k :| 0 <= k < |b.claimed| && b.claimed[k] == s.rows[i].message;
      OutcomeOf(b, k);
      MarkedRow(s, tx, at, i);
      assert Holds(b, s.rows[i].message.id);
    }
  }

  predicate RowsRegistered(rows: seq<Row>, registered: set<Queue>) {
    forall i :: 0 <= i < |rows| ==> AllRegistered(rows[i].message, registered)
  }

  /** Every row is as it was or, from then on, published. */
  predicate SameOrPublished(before: seq<Row>, after: seq<Row>) {
    && |after| == |before|
    && forall i :: 0 <= i < |before| ==> after[i].message == before[i].message && (after[i] == before[i] || after[i].publishedAt.Some?)
  }

  /** Every row that could be claimed ended published. */
  predicate NothingLeft(before: seq<Row>, after: seq<Row>, maxAttempts: nat) {
    |after| == |before| && forall i :: 0 <= i < |before| && Claimable(before[i], maxAttempts) ==> after[i].publishedAt.Some?
  }

  lemma TickPublishes(origin: seq<Row>, before: seq<Row>, after: seq<Row>, list: seq<Message>, at: Time, registered: set<Queue>)
    requires RowsRegistered(origin, registered) && SameOrPublished(origin, before)
    requires DealtWith(before, after, list, at) && FairlyPublished(after, list, registered, true)
    ensures SameOrPublished(origin, after)
  {
    forall i | 0 <= i < |origin|
      ensures after[i].message == origin[i].message && (after[i] == origin[i] || after[i].publishedAt.Some?)
    {
      assert AllRegistered(origin[i].message, registered);
    }
  }

  lemma NothingDealt(before: seq<Row>, after: seq<Row>, at: Time)
    requires DealtWith(before, after, [], at)
    ensures after == before
  {
  }

  /** The table and the queues, as one publisher finds them. */
  class Backends {
    const maxAttempts: nat
    const registered: set<Queue>
    /** Committed rows, and what the open transaction sees. */
    var rows: seq<Row>
    var pending: seq<Row>
    /** Rows locked by open transactions, of this and of other publishers. */
    var locked: set<Id>
    var jobs: set<Job>
    /** What becomes of the next additions to a queue, all others arriving; and how many statements are left
        before the database fails. */
    var fates: seq<Fate>
    var dbFaultIn: Option<nat>
    ghost var open: map<Id, Batch>
    ghost var origin: Sys
    ghost var steps: seq<Step>

    constructor (maxAttempts: nat, registered: set<Queue>, fates: seq<Fate>, dbFaultIn: Option<nat>)
      ensures Valid() && rows == [] && open == map[] && jobs == {} && this.maxAttempts == maxAttempts && this.registered == registered
      ensures this.fates == fates && this.dbFaultIn == dbFaultIn
    {
      this.maxAttempts, this.registered, this.fates, this.dbFaultIn := maxAttempts, registered, fates, dbFaultIn;
      rows, pending, locked, jobs := [], [], {}, {};
      open, origin, steps := map[], Idle(maxAttempts), [];
    }

    ghost function State(): Sys
      reads this
    {
      Sys(maxAttempts, rows, open, jobs)
    }

    /** The state is the one the machine reaches by the steps taken so far. */
    ghost predicate Valid()
      reads this
    {
      && SysInv(origin)
      && CanRun(origin, steps)
      && SysAfter(origin, steps) == State()
      && (forall id :: id in locked <==> Locked(open, id))
    }

    /** The steps so far are the old ones and some more. */
    twostate predicate WentOn()
      reads this
    {
      && Valid()
      && origin == old(origin)
      && |old(steps)| <= |steps| && steps[..|old(steps)|] == old(steps)
    }

    lemma LosesNothing()
      requires Valid()
      ensures NothingLost(rows, jobs) && JobsAreRows(jobs, rows)
    {
      RunKeeps(origin, steps);
    }

    method DbStatement() returns (o: Done)
      modifies this`dbFaultIn
      ensures dbFaultIn.Some? <==> old(dbFaultIn).Some?
      ensures o.Broke? ==> old(dbFaultIn).Some?
    {
      match dbFaultIn
      case None => o := Done;
      case Some(left) =>
        if left == 0 {
          o := Broke;
        } else {
          dbFaultIn := Some(left - 1);
          o := Done;
        }
    }

    /** A use case committed with one more event; every transaction sees it from then on. */
    method Append(m: Message)
      requires Valid() && IsNew(rows, m.id)
      modifies this`rows, this`pending, this`steps
      ensures WentOn() && rows == old(rows) + [Row(m, None, 0)] && pending == old(pending) + [Row(m, None, 0)]
    {
      OneMore(origin, steps, OutboxMachine.Append(m));
      rows, pending := rows + [Row(m, None, 0)], pending + [Row(m, None, 0)];
      steps := steps + [OutboxMachine.Append(m)];
    }

    /** The pending rows nobody has locked, oldest first, up to the limit. */
    method Oldest(limit: nat) returns (list: seq<Message>)
      requires Valid()
      ensures IsClaim(State(), limit, list) && TakesOldest(State(), limit, list)
    {
      list := [];
      RunKeeps(origin, steps);
      ghost var s := State();
      while |list| < limit
        invariant |list| <= limit && Sorted(list)
        invariant forall m :: m in list ==> exists i :: Candidate(s, i) && s.rows[i].message == m
        invariant forall i :: Candidate(s, i) ==> s.rows[i].message in list || AllPrecede(list, s.rows[i].message)
        invariant s == State()
      {
        var next := OldestBut(list);
        match next
        case None => break;
        case Some(m) =>
          AllPrecedeMore(s, list, m);
          list := list + [m];
      }
      ClaimTakesOldest(s, limit, list);
    }

    method OldestBut(list: seq<Message>) returns (next: Option<Message>)
      requires Valid()
      ensures next.None? ==> forall i :: Candidate(State(), i) ==> rows[i].message in list
      ensures next.Some? ==> IsOldestBut(State(), list, next.value)
    {
      RunKeeps(origin, steps);
      next := None;
      var i := 0;
      while i < |rows|
        invariant 0 <= i <= |rows|
        invariant next.None? ==> forall j :: 0 <= j < i && Candidate(State(), j) ==> rows[j].message in list
        invariant next.Some? ==> next.value !in list
        invariant next.Some? ==> exists j :: Candidate(State(), j) && rows[j].message == next.value
        invariant next.Some? ==> forall j :: 0 <= j < i && Candidate(State(), j) && rows[j].message !in list
                                             ==> rows[j].message == next.value || Precedes(next.value, rows[j].message)
      {
        var row := rows[i];
        assert Candidate(State(), i) <==> row.publishedAt.None? && row.attempts < maxAttempts && row.message.id !in locked;
        if row.publishedAt.None? && row.attempts < maxAttempts && row.message.id !in locked && row.message !in list {
          if next.None? || Precedes(row.message, next.value) {
            next := Some(row.message);
          }
        }
        i := i + 1;
      }
    }

    /** `FOR UPDATE`: the rows are this transaction's until it ends. */
    method LockRows(tx: Id, limit: nat, list: seq<Message>)
      requires Valid() && tx !in open && IsClaim(State(), limit, list)
      modifies this`open, this`locked, this`pending, this`steps
      ensures WentOn() && open == old(open)[tx := Batch(limit, list, [], 0)] && pending == rows
    {
      ghost var b := Batch(limit, list, [], 0);
      OneMore(origin, steps, OutboxMachine.Claim(tx, limit, list));
      forall id ensures Locked(open[tx := b], id) <==> Locked(open, id) || id in Ids(list) {
        LocksGained(open, tx, b, id);
      }
      open, locked, pending := open[tx := b], locked + Ids(list), rows;
      steps := steps + [OutboxMachine.Claim(tx, limit, list)];
    }

    /** `outbox_claim_batch`, which opens the publisher's transaction. */
    method Claim(tx: Id, limit: nat) returns (r: Attempt<seq<Message>>)
      requires Valid() && tx !in open
      modifies this
      ensures WentOn()
      ensures rows == old(rows) && jobs == old(jobs) && fates == old(fates) && (dbFaultIn.Some? <==> old(dbFaultIn).Some?)
      ensures r.Ok? ==> IsClaim(old(State()), limit, r.value) && open == old(open)[tx := Batch(limit, r.value, [], 0)] && pending == rows
      ensures r.Ok? ==> TakesOldest(old(State()), limit, r.value)
      ensures r.Err? ==> r == Err(Threw) && old(dbFaultIn).Some? && open == old(open)
    {
      var o := DbStatement();
      if o.Broke? { return Err(Threw); }
      var list := Oldest(limit);
      LockRows(tx, limit, list);
      return Ok(list);
    }

    /** One `cola.add`. */
    method Add(tx: Id, queue: Queue, m: Message) returns (o: Done)
      requires Valid() && tx in open && Busy(open[tx]) && m == open[tx].claimed[|open[tx].outcomes|]
      requires open[tx].received < |QueuesOf(m)| && queue == QueuesOf(m)[open[tx].received]
      modifies this
      ensures WentOn()
      ensures rows == old(rows) && pending == old(pending) && dbFaultIn == old(dbFaultIn)
      ensures old(fates) == [] ==> o.Done? && fates == []
      ensures var arrived := open == old(open)[tx := old(open)[tx].(received := old(open)[tx].received + 1)] && jobs == old(jobs) + {Job(queue, m.id, m)};
              arrived || (o.Broke? && open == old(open) && jobs == old(jobs))
    {
      var fate := NextFate();
      if fate != Dropped {
        Receive(tx, queue, m);
      }
      o := if fate == Arrives then Done else Broke;
    }

    method NextFate() returns (fate: Fate)
      modifies this`fates
      ensures old(fates) == [] ==> fate == Arrives && fates == []
    {
      fate := Arrives;
      if |fates| > 0 {
        fate := fates[0];
        fates := fates[1..];
      }
    }

    method Receive(tx: Id, queue: Queue, m: Message)
      requires Valid() && tx in open && Busy(open[tx]) && m == open[tx].claimed[|open[tx].outcomes|]
      requires open[tx].received < |QueuesOf(m)| && queue == QueuesOf(m)[open[tx].received]
      modifies this`jobs, this`open, this`steps
      ensures WentOn()
      ensures open == old(open)[tx := old(open)[tx].(received := old(open)[tx].received + 1)] && jobs == old(jobs) + {Job(queue, m.id, m)}
    {
      ghost var b := open[tx].(received := open[tx].received + 1);
      OneMore(origin, steps, OutboxMachine.Add(tx));
      forall id ensures Locked(open[tx := b], id) <==> Locked(open, id) { LocksSame(open, tx, b, id); }
      jobs := jobs + {Job(queue, m.id, m)};
      open := open[tx := b];
      steps := steps + [OutboxMachine.Add(tx)];
    }

    /** The message in hand is through: every queue it is for has it. */
    ghost method NoteEnqueued(tx: Id)
      requires Valid() && tx in open && Busy(open[tx]) && open[tx].received == |QueuesOf(open[tx].claimed[|open[tx].outcomes|])|
      modifies this`open, this`steps
      ensures WentOn()
      ensures open == old(open)[tx := old(open)[tx].(outcomes := old(open)[tx].outcomes + [true], received := 0)]
    {
      var b := open[tx].(outcomes := open[tx].outcomes + [true], received := 0);
      OneMore(origin, steps, Finish(tx));
      forall id ensures Locked(open[tx := b], id) <==> Locked(open, id) { LocksSame(open, tx, b, id); }
      open := open[tx := b];
      steps := steps + [Finish(tx)];
    }

    method MarkFailed(tx: Id, id: Id) returns (o: Done)
      requires Valid() && tx in open && Busy(open[tx]) && id == open[tx].claimed[|open[tx].outcomes|].id
      requires pending == WithFailures(rows, open[tx])
      modifies this
      ensures WentOn()
      ensures rows == old(rows) && jobs == old(jobs) && fates == old(fates) && (dbFaultIn.Some? <==> old(dbFaultIn).Some?)
      ensures o.Done? ==> open == old(open)[tx := old(open)[tx].(outcomes := old(open)[tx].outcomes + [false], received := 0)] && pending == WithFailures(rows, open[tx])
      ensures o.Broke? ==> open == old(open) && old(dbFaultIn).Some?
    {
      o := DbStatement();
      if o.Broke? { return; }
      AddAttempt(tx, id);
    }

    method AddAttempt(tx: Id, id: Id)
      requires Valid() && tx in open && Busy(open[tx]) && id == open[tx].claimed[|open[tx].outcomes|].id
      requires pending == WithFailures(rows, open[tx])
      modifies this`pending, this`open, this`steps
      ensures WentOn()
      ensures open == old(open)[tx := old(open)[tx].(outcomes := old(open)[tx].outcomes + [false], received := 0)] && pending == WithFailures(rows, open[tx])
    {
      RunKeeps(origin, steps);
      OneMoreFailure(rows, open[tx]);
      pending := WithFailed(pending, id);
      ghost var b := open[tx].(outcomes := open[tx].outcomes + [false], received := 0);
      OneMore(origin, steps, Fail(tx));
      forall x ensures Locked(open[tx := b], x) <==> Locked(open, x) { LocksSame(open, tx, b, x); }
      open := open[tx := b];
      steps := steps + [Fail(tx)];
    }

    /** `outbox_mark_published` and the commit that follows it. */
    method MarkPublishedAndCommit(tx: Id, held: seq<Message>, ids: seq<Id>, at: Time) returns (o: Done)
      requires Valid() && tx in open && !Busy(open[tx]) && held == open[tx].claimed
      requires pending == WithFailures(rows, open[tx]) && ListsEnqueued(ids, open[tx])
      modifies this
      ensures WentOn()
      ensures open == old(open) - {tx} && jobs == old(jobs) && fates == old(fates) && (dbFaultIn.Some? <==> old(dbFaultIn).Some?)
      ensures o.Done? ==> rows == MarkedRows(old(rows), old(open)[tx], at)
      ensures o.Broke? ==> rows == old(rows) && old(dbFaultIn).Some?
    {
      if |ids| > 0 {
        o := DbStatement();
        if o.Broke? {
          Rollback(tx, held);
          return;
        }
      }
      o := DbStatement();
      if o.Broke? {
        Rollback(tx, held);
        return;
      }
      CommitMarks(tx, held, ids, at);
    }

    method CommitMarks(tx: Id, held: seq<Message>, ids: seq<Id>, at: Time)
      requires Valid() && tx in open && !Busy(open[tx]) && held == open[tx].claimed
      requires pending == WithFailures(rows, open[tx]) && ListsEnqueued(ids, open[tx])
      modifies this`rows, this`open, this`locked, this`steps
      ensures WentOn()
      ensures open == old(open) - {tx} && rows == MarkedRows(old(rows), old(open)[tx], at)
    {
      RunKeeps(origin, steps);
      MarksAreCommit(rows, open[tx], ids, maxAttempts, at);
      OneMore(origin, steps, Commit(tx, at));
      forall id ensures Locked(open - {tx}, id) <==> Locked(open, id) && id !in Ids(held) { LocksLeft(open, tx, id); }
      rows := WithPublished(pending, ids, at);
      open, locked := open - {tx}, locked - Ids(held);
      steps := steps + [Commit(tx, at)];
    }

    /** The transaction is gone, with its marks and its locks; what the queues received stays. */
    method Rollback(tx: Id, held: seq<Message>)
      requires Valid() && tx in open && held == open[tx].claimed
      modifies this`open, this`locked, this`pending, this`steps
      ensures WentOn()
      ensures open == old(open) - {tx}
    {
      RunKeeps(origin, steps);
      OneMore(origin, steps, Crash(tx));
      forall id ensures Locked(open - {tx}, id) <==> Locked(open, id) && id !in Ids(held) { LocksLeft(open, tx, id); }
      pending := rows;
      open, locked := open - {tx}, locked - Ids(held);
      steps := steps + [Crash(tx)];
    }
  }

  class OutboxPublisher {
    const site: Backends
    const limit: nat

    constructor (site: Backends, limit: nat)
      ensures this.site == site && this.limit == limit
    {
      this.site, this.limit := site, limit;
    }

    /** One message to all the queues it is for. It throws when a queue does not, or when one is not
        registered, which would otherwise pass for published. */
    method Enqueue(tx: Id, m: Message) returns (o: Done)
      requires site.Valid() && tx in site.open && Busy(site.open[tx]) && m == site.open[tx].claimed[|site.open[tx].outcomes|] && site.open[tx].received == 0
      modifies site
      ensures site.WentOn()
      ensures site.rows == old(site.rows) && site.pending == old(site.pending) && site.dbFaultIn == old(site.dbFaultIn)
      ensures o.Done? ==> site.open == old(site.open)[tx := old(site.open)[tx].(received := |QueuesOf(m)|)]
      ensures exists n: nat :: site.open == old(site.open)[tx := old(site.open)[tx].(received := n)]
      ensures (exists q :: q in QueuesOf(m) && q !in site.registered) ==> o.Broke?
      ensures old(site.fates) == [] && (forall q :: q in QueuesOf(m) ==> q in site.registered) ==> o.Done?
      ensures old(site.fates) == [] ==> site.fates == []
    {
      var queues := QueuesOf(m);
      assert site.open == site.open[tx := site.open[tx].(received := 0)];
      var k := 0;
      while k < |queues|
        invariant 0 <= k <= |queues|
        invariant site.WentOn()
        invariant site.rows == old(site.rows) && site.pending == old(site.pending) && site.dbFaultIn == old(site.dbFaultIn)
        invariant site.open == old(site.open)[tx := old(site.open)[tx].(received := k)]
        invariant forall j :: 0 <= j < k ==> queues[j] in site.registered
        invariant old(site.fates) == [] ==> site.fates == []
      {
        if queues[k] !in site.registered { return Broke; }
        o := site.Add(tx, queues[k], m);
        if o.Broke? { return; }
        k := k + 1;
      }
      o := Done;
    }

    /** The transaction `tx` holds `held`, has dealt with the first `i` and `published` those it lists. */
    ghost predicate InHand(tx: Id, held: seq<Message>, i: nat, published: seq<Id>, calm: bool)
      reads site
    {
      && site.Valid()
      && tx in site.open && site.open[tx].claimed == held && |site.open[tx].outcomes| == i <= |held| && site.open[tx].received == 0
      && site.pending == WithFailures(site.rows, site.open[tx])
      && ListsEnqueued(published, site.open[tx])
      && Fair(site.open[tx], site.registered, calm)
      && (calm ==> site.fates == [])
    }

    /** One turn of the loop: a message that cannot be enqueued does not hold up the others. */
    method PublishOne(tx: Id, held: seq<Message>, i: nat, published: seq<Id>, ghost calm: bool) returns (o: Done, now: seq<Id>)
      requires i < |held| && InHand(tx, held, i, published, calm)
      modifies site
      ensures site.WentOn() && site.rows == old(site.rows) && site.open - {tx} == old(site.open) - {tx}
      ensures site.dbFaultIn.Some? <==> old(site.dbFaultIn).Some?
      ensures calm ==> site.fates == []
      ensures o.Done? ==> InHand(tx, held, i + 1, now, calm)
      ensures o.Broke? ==> old(site.dbFaultIn).Some? && tx in site.open && site.open[tx].claimed == held
    {
      ghost var b := site.open[tx];
      RunKeeps(site.origin, site.steps);
      var e := Enqueue(tx, held[i]);
      assert site.open[tx].outcomes == b.outcomes && site.open[tx].claimed == held;
      if e.Done? {
        EnqueuedAddsNoFailure(site.rows, b);
        OneMoreEnqueued(published, b, true);
        OneMoreFair(b, site.registered, calm, true);
        site.NoteEnqueued(tx);
        return Done, published + [held[i].id];
      }
      SameFailures(site.rows, b, site.open[tx]);
      OneMoreEnqueued(published, b, false);
      OneMoreFair(b, site.registered, calm, false);
      o := site.MarkFailed(tx, held[i].id);
      now := published;
    }

    /** The loop over a claimed batch. */
    method PublishEach(tx: Id, messages: seq<Message>, ghost calm: bool) returns (o: Done, published: seq<Id>)
      requires InHand(tx, messages, 0, [], calm)
      modifies site
      ensures site.WentOn() && site.rows == old(site.rows) && site.open - {tx} == old(site.open) - {tx}
      ensures site.dbFaultIn.Some? <==> old(site.dbFaultIn).Some?
      ensures calm ==> site.fates == []
      ensures o.Done? ==> InHand(tx, messages, |messages|, published, calm)
      ensures o.Broke? ==> old(site.dbFaultIn).Some? && tx in site.open && site.open[tx].claimed == messages
    {
      published := [];
      var i := 0;
      while i < |messages|
        invariant 0 <= i <= |messages|
        invariant site.WentOn() && site.rows == old(site.rows) && site.open - {tx} == old(site.open) - {tx}
        invariant InHand(tx, messages, i, published, calm)
        invariant site.dbFaultIn.Some? <==> old(site.dbFaultIn).Some?
      {
        o, published := PublishOne(tx, messages, i, published, calm);
        if o.Broke? { return; }
        i := i + 1;
      }
      o := Done;
    }

    /** The marks and the commit of a batch gone through. */
    method Complete(tx: Id, messages: seq<Message>, published: seq<Id>, at: Time, ghost calm: bool) returns (o: Done)
      requires InHand(tx, messages, |messages|, published, calm)
      modifies site
      ensures site.WentOn() && site.open == old(site.open) - {tx}
      ensures site.dbFaultIn.Some? <==> old(site.dbFaultIn).Some?
      ensures calm ==> site.fates == []
      ensures o.Done? ==> DealtWith(old(site.rows), site.rows, messages, at) && FairlyPublished(site.rows, messages, site.registered, calm)
      ensures o.Done? ==> WorkLeft(site.rows, site.maxAttempts) + |messages| <= WorkLeft(old(site.rows), site.maxAttempts)
      ensures o.Broke? ==> site.rows == old(site.rows) && old(site.dbFaultIn).Some?
    {
      RunKeeps(site.origin, site.steps);
      CommitDealsWith(site.State(), tx, at);
      CommitLowersWork(site.State(), tx, at);
      CommitIsFair(site.State(), tx, at, site.registered, calm);
      o := site.MarkPublishedAndCommit(tx, messages, published, at);
    }

    /** What is done with a claimed batch, up to the end of its transaction. */
    method PublishBatch(tx: Id, messages: seq<Message>, at: Time, ghost calm: bool) returns (o: Done)
      requires InHand(tx, messages, 0, [], calm)
      modifies site
      ensures site.WentOn() && site.open == old(site.open) - {tx}
      ensures site.dbFaultIn.Some? <==> old(site.dbFaultIn).Some?
      ensures calm ==> site.fates == []
      ensures o.Done? ==> DealtWith(old(site.rows), site.rows, messages, at) && FairlyPublished(site.rows, messages, site.registered, calm)
      ensures o.Done? ==> WorkLeft(site.rows, site.maxAttempts) + |messages| <= WorkLeft(old(site.rows), site.maxAttempts)
      ensures o.Broke? ==> site.rows == old(site.rows) && old(site.dbFaultIn).Some?
    {
      var published;
      o, published := PublishEach(tx, messages, calm);
      if o.Broke? {
        site.Rollback(tx, messages);
      } else {
        o := Complete(tx, messages, published, at, calm);
      }
    }

    method ClaimBatch(tx: Id, ghost calm: bool) returns (r: Attempt<seq<Message>>)
      requires site.Valid() && tx !in site.open && calm == (site.fates == [])
      modifies site
      ensures site.WentOn() && site.rows == old(site.rows) && site.fates == old(site.fates)
      ensures site.dbFaultIn.Some? <==> old(site.dbFaultIn).Some?
      ensures r.Ok? ==> IsClaim(old(site.State()), limit, r.value) && InHand(tx, r.value, 0, [], calm) && site.open - {tx} == old(site.open)
      ensures r.Ok? ==> TakesOldest(old(site.State()), limit, r.value)
      ensures r.Err? ==> r == Err(Threw) && old(site.dbFaultIn).Some? && site.open == old(site.open)
    {
      r := site.Claim(tx, limit);
      if r.Ok? {
        NoFailureYet(site.rows, limit, r.value);
      }
    }

    /** One tick. It deals with every message it claims: published, or one attempt more. If the database
        fails on the way, the table is as it was. */
    method PublishPending(tx: Id, at: Time) returns (r: Attempt<nat>, ghost list: seq<Message>)
      requires site.Valid() && tx !in site.open
      modifies site
      ensures site.WentOn() && site.open == old(site.open)
      ensures r.Ok? ==> IsClaim(old(site.State()), limit, list) && r.value == |list| && DealtWith(old(site.rows), site.rows, list, at)
      ensures r.Ok? ==> TakesOldest(old(site.State()), limit, list)
      ensures r.Ok? ==> FairlyPublished(site.rows, list, site.registered, old(site.fates) == [])
      ensures r.Ok? ==> WorkLeft(site.rows, site.maxAttempts) + r.value <= WorkLeft(old(site.rows), site.maxAttempts)
      ensures r.Err? ==> old(site.dbFaultIn).Some? && site.rows == old(site.rows)
      ensures NothingLost(site.rows, site.jobs) && JobsAreRows(site.jobs, site.rows)
      ensures old(site.fates) == [] ==> site.fates == []
      ensures site.dbFaultIn.Some? <==> old(site.dbFaultIn).Some?
    {
      ghost var calm := site.fates == [];
      list := [];
      var messages := [];
      var claimed := ClaimBatch(tx, calm);
      site.LosesNothing();
      match claimed
      case Err(failure) => return Err(failure), list;
      case Ok(batch) => messages := batch;
      list := messages;
      var o := PublishBatch(tx, messages, at, calm);
      site.LosesNothing();
      r := if o.Done? then Ok(|messages|) else Err(Threw);
    }

    /** Ticks until one finds nothing, with nobody else publishing and the database holding: it ends, and
        then every row is published or out of attempts. If no addition throws and every queue is registered,
        every row that had attempts left ends published. */
    method DrainAll(tx: Id, at: Time)
      requires site.Valid() && site.open == map[] && site.dbFaultIn.None? && limit > 0
      modifies site
      ensures site.WentOn() && site.open == map[]
      ensures forall i :: 0 <= i < |site.rows| ==> site.rows[i].publishedAt.Some? || site.rows[i].attempts == site.maxAttempts
      ensures old(site.fates) == [] && RowsRegistered(old(site.rows), site.registered) ==> NothingLeft(old(site.rows), site.rows, site.maxAttempts)
    {
      ghost var calm := site.fates == [] && RowsRegistered(site.rows, site.registered);
      var n := 1;
      while n > 0
        invariant site.WentOn() && site.open == map[] && site.dbFaultIn.None?
        invariant calm ==> site.fates == [] && SameOrPublished(old(site.rows), site.rows)
        invariant n == 0 ==> IsClaim(site.State(), limit, [])
        decreases WorkLeft(site.rows, site.maxAttempts), n
      {
        ghost var before := site.rows;
        var r;
        ghost var list;
        r, list := PublishPending(tx, at);
        n := r.value;
        if n == 0 {
          assert list == [];
          NothingDealt(before, site.rows, at);
        }
        if calm {
          TickPublishes(old(site.rows), before, site.rows, list, at, site.registered);
        }
      }
      RunKeeps(site.origin, site.steps);
      DrainedIff(site.State(), limit);
    }
  }
}
