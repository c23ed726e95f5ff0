/** The outbox and its publishers: several of them at once, each claiming rows that nobody else holds,
    adding jobs to queues one by one, and marking rows in the transaction that holds them. A crash rolls
    back the database and keeps whatever the queues received.
 */
module OutboxMachine {
  import opened Kernel
  import opened TicketDomain

  /** A row of `outbox_messages`: the message never changes, its two marks do. */
  datatype Row = Row(message: Message, publishedAt: Option<Time>, attempts: nat)

  /** A job some queue has received. Queues are never asked whether they still have it. */
  datatype Job = Job(queue: Queue, jobId: Id, data: Message)

  /** A publisher's open transaction: the rows it holds locked, in claim order; for those it has dealt
      with, whether they were enqueued; and how many queues have received the current one. */
  datatype Batch = Batch(limit: nat, claimed: seq<Message>, outcomes: seq<bool>, received: nat)

  datatype Sys = Sys(maxAttempts: nat, rows: seq<Row>, open: map<Id, Batch>, jobs: set<Job>)

  datatype Step =
    | Append(message: Message)
    | Claim(tx: Id, limit: nat, list: seq<Message>)
    | Add(tx: Id)
    | Finish(tx: Id)
    | Fail(tx: Id)
    | Commit(tx: Id, at: Time)
    | Crash(tx: Id)

  function QueuesOf(m: Message): seq<Queue> {
    QueuesFor(NameOf(m.event.payload))
  }

  // ------------------------------------------------------------------ claims

  /** Oldest first; ids break ties. */
  predicate Precedes(a: Message, b: Message) {
    a.event.occurredAt < b.event.occurredAt || (a.event.occurredAt == b.event.occurredAt && a.id < b.id)
  }

  predicate Claimable(row: Row, maxAttempts: nat) {
    row.publishedAt.None? && row.attempts < maxAttempts
  }

  predicate Holds(b: Batch, id: Id) {
    exists k :: 0 <= k < |b.claimed| && b.claimed[k].id == id
  }

  predicate Locked(open: map<Id, Batch>, id: Id) {
    exists tx :: tx in open && Holds(open[tx], id)
  }

  predicate Candidate(s: Sys, i: int) {
    0 <= i < |s.rows| && Claimable(s.rows[i], s.maxAttempts) && !Locked(s.open, s.rows[i].message.id)
  }

  predicate Sorted(list: seq<Message>) {
    forall j, k :: 0 <= j < k < |list| ==> Precedes(list[j], list[k])
  }

  predicate AllPrecede(list: seq<Message>, m: Message) {
    forall k :: 0 <= k < |list| ==> Precedes(list[k], m)
  }

  /** `FOR UPDATE SKIP LOCKED` over the pending rows, oldest first, up to the limit. */
  ghost predicate IsClaim(s: Sys, limit: nat, list: seq<Message>) {
    && |list| <= limit
    && Sorted(list)
    && (forall m :: m in list ==> exists i :: Candidate(s, i) && s.rows[i].message == m)
    && (forall i :: Candidate(s, i) ==> s.rows[i].message in list || (|list| == limit && AllPrecede(list, s.rows[i].message)))
  }

  /** A message written before another, or at the same instant with the smaller id. */
  predicate IsOlder(a: Message, b: Message) {
    a.event.occurredAt <= b.event.occurredAt && (a.event.occurredAt == b.event.occurredAt ==> a.id < b.id)
  }

  /** Waiting to be published, with attempts left, and in nobody's hands. */
  ghost predicate IsWaiting(s: Sys, row: Row) {
    && row in s.rows && row.publishedAt == None && row.attempts < s.maxAttempts
    && forall tx, k :: tx in s.open && 0 <= k < |s.open[tx].claimed| ==> s.open[tx].claimed[k].id != row.message.id
  }

  ghost predicate Waits(s: Sys, m: Message) {
    exists row :: IsWaiting(s, row) && row.message == m
  }

  /** The oldest rows that wait, in the order of their instants, as many as there is room for: none is left
      out while a younger one is taken. */
  ghost predicate TakesOldest(s: Sys, limit: nat, list: seq<Message>) {
    && |list| <= limit
    && (forall j, k :: 0 <= j < k < |list| ==> IsOlder(list[j], list[k]))
    && (forall k :: 0 <= k < |list| ==> Waits(s, list[k]))
    && (forall m :: Waits(s, m) && m !in list ==> |list| == limit && forall k :: 0 <= k < |list| ==> IsOlder(list[k], m))
  }

  lemma WaitingIsCandidate(s: Sys, i: nat)
    requires i < |s.rows|
    ensures Candidate(s, i) <==> IsWaiting(s, s.rows[i])
  {
    if Locked(s.open, s.rows[i].message.id) {
      var tx :| tx in s.open && Holds(s.open[tx], s.rows[i].message.id);
      var k :| 0 <= k < |s.open[tx].claimed| && s.open[tx].claimed[k].id == s.rows[i].message.id;
    } else {
      forall tx, k | tx in s.open && 0 <= k < |s.open[tx].claimed| ensures s.open[tx].claimed[k].id != s.rows[i].message.id {
        assert !Holds(s.open[tx], s.rows[i].message.id);
      }
    }
  }

  /** Whatever a claim returns are the oldest. */
  lemma ClaimTakesOldest(s: Sys, limit: nat, list: seq<Message>)
    requires IsClaim(s, limit, list)
    ensures TakesOldest(s, limit, list)
  {
    forall k | 0 <= k < |list| ensures Waits(s, list[k]) {
      assert list[k] in list;
      var i :| Candidate(s, i) && s.rows[i].message == list[k];
      WaitingIsCandidate(s, i);
    }
    forall m | Waits(s, m) && m !in list ensures |list| == limit && forall k :: 0 <= k < |list| ==> IsOlder(list[k], m) {
      var row :| IsWaiting(s, row) && row.message == m;
      var i :| 0 <= i < |s.rows| && s.rows[i] == row;
      WaitingIsCandidate(s, i);
    }
  }

  // ------------------------------------------------------------------- marks

  predicate WasEnqueued(b: Batch, id: Id) {
    exists k :: 0 <= k < |b.outcomes| && k < |b.claimed| && b.outcomes[k] && b.claimed[k].id == id
  }

  predicate HasFailed(b: Batch, id: Id) {
    exists k :: 0 <= k < |b.outcomes| && k < |b.claimed| && !b.outcomes[k] && b.claimed[k].id == id
  }

  /** A row once the batch that holds it commits. */
  function Marked(row: Row, b: Batch, at: Time): Row {
    if WasEnqueued(b, row.message.id) then row.(publishedAt := Some(at))
    else if HasFailed(b, row.message.id) then row.(attempts := row.attempts + 1)
    else row
  }

  function MarkedRows(rows: seq<Row>, b: Batch, at: Time): seq<Row> {
    seq(|rows|, i requires 0 <= i < |rows| => Marked(rows[i], b, at))
  }

  // ------------------------------------------------------------------- steps

  predicate IsNew(rows: seq<Row>, id: Id) {
    forall i :: 0 <= i < |rows| ==> rows[i].message.id != id
  }

  predicate Busy(b: Batch) {
    |b.outcomes| < |b.claimed|
  }

  ghost predicate Can(s: Sys, step: Step) {
    match step
    case Append(m) => IsNew(s.rows, m.id)
    case Claim(tx, limit, list) => tx !in s.open && IsClaim(s, limit, list)
    case Add(tx) => tx in s.open && Busy(s.open[tx]) && s.open[tx].received < |QueuesOf(s.open[tx].claimed[|s.open[tx].outcomes|])|
    case Finish(tx) => tx in s.open && Busy(s.open[tx]) && s.open[tx].received == |QueuesOf(s.open[tx].claimed[|s.open[tx].outcomes|])|
    case Fail(tx) => tx in s.open && Busy(s.open[tx])
    case Commit(tx, _) => tx in s.open && !Busy(s.open[tx])
    case Crash(tx) => tx in s.open
  }

  ghost function After(s: Sys, step: Step): Sys
    requires Can(s, step)
  {
    match step
    case Append(m) => s.(rows := s.rows + [Row(m, None, 0)])
    case Claim(tx, limit, list) => s.(open := s.open[tx := Batch(limit, list, [], 0)])
    case Add(tx) =>
      var b := s.open[tx];
      var m := b.claimed[|b.outcomes|];
      s.(open := s.open[tx := b.(received := b.received + 1)], jobs := s.jobs + {Job(QueuesOf(m)[b.received], m.id, m)})
    case Finish(tx) =>
      s.(open := s.open[tx := s.open[tx].(outcomes := s.open[tx].outcomes + [true], received := 0)])
    case Fail(tx) =>
      s.(open := s.open[tx := s.open[tx].(outcomes := s.open[tx].outcomes + [false], received := 0)])
    case Commit(tx, at) => s.(rows := MarkedRows(s.rows, s.open[tx], at), open := s.open - {tx})
    case Crash(tx) => s.(open := s.open - {tx})
  }

  // --------------------------------------------------------------- invariant

  predicate UniqueRows(rows: seq<Row>) {
    forall i, j :: 0 <= i < j < |rows| ==> rows[i].message.id != rows[j].message.id
  }

  predicate HasRow(rows: seq<Row>, m: Message) {
    exists i :: 0 <= i < |rows| && rows[i].message == m
  }

  /** The first `n` queues of the message have received it, whole. */
  predicate Received(jobs: set<Job>, m: Message, n: nat) {
    forall q :: 0 <= q < n && q < |QueuesOf(m)| ==> Job(QueuesOf(m)[q], m.id, m) in jobs
  }

  predicate EverywhereReceived(jobs: set<Job>, m: Message) {
    Received(jobs, m, |QueuesOf(m)|)
  }

  predicate Distinct(list: seq<Message>) {
    forall j, k :: 0 <= j < k < |list| ==> list[j].id != list[k].id
  }

  /** The rows a batch holds are stored and still pending, whatever others have done meanwhile. */
  predicate HoldsPending(b: Batch, rows: seq<Row>, maxAttempts: nat) {
    && Distinct(b.claimed)
    && (forall k :: 0 <= k < |b.claimed| ==> HasRow(rows, b.claimed[k]))
    && (forall i :: 0 <= i < |rows| && Holds(b, rows[i].message.id) ==> Claimable(rows[i], maxAttempts))
  }

  /** What a batch counts as enqueued, every queue has. */
  predicate Honest(b: Batch, jobs: set<Job>) {
    && |b.outcomes| <= |b.claimed|
    && (forall k :: 0 <= k < |b.outcomes| && b.outcomes[k] ==> EverywhereReceived(jobs, b.claimed[k]))
    && (Busy(b) ==> b.received <= |QueuesOf(b.claimed[|b.outcomes|])| && Received(jobs, b.claimed[|b.outcomes|], b.received))
  }

  /** Two open transactions never hold the same row. */
  predicate Exclusive(open: map<Id, Batch>) {
    forall x, y, j, k :: x in open && y in open && x != y && 0 <= j < |open[x].claimed| && 0 <= k < |open[y].claimed|
                         ==> open[x].claimed[j].id != open[y].claimed[k].id
  }

  predicate JobsAreRows(jobs: set<Job>, rows: seq<Row>) {
    forall job :: job in jobs ==> job.jobId == job.data.id && job.queue in QueuesOf(job.data) && HasRow(rows, job.data)
  }

  /** No event is lost: what is marked published has been received, whole, by every queue it is for. */
  predicate NothingLost(rows: seq<Row>, jobs: set<Job>) {
    forall i :: 0 <= i < |rows| && rows[i].publishedAt.Some? ==> EverywhereReceived(jobs, rows[i].message)
  }

  predicate AttemptsBounded(rows: seq<Row>, maxAttempts: nat) {
    forall i :: 0 <= i < |rows| ==> rows[i].attempts <= maxAttempts
  }

  ghost predicate SysInv(s: Sys) {
    && UniqueRows(s.rows)
    && AttemptsBounded(s.rows, s.maxAttempts)
    && (forall tx :: tx in s.open ==> HoldsPending(s.open[tx], s.rows, s.maxAttempts) && Honest(s.open[tx], s.jobs))
    && Exclusive(s.open)
    && JobsAreRows(s.jobs, s.rows)
    && NothingLost(s.rows, s.jobs)
  }

  // ------------------------------------------------------------- preservation

  lemma AppendKeeps(s: Sys, m: Message)
    requires SysInv(s) && Can(s, Append(m))
    ensures SysInv(After(s, Append(m)))
  {
    var rows := s.rows + [Row(m, None, 0)];
    forall x | HasRow(s.rows, x) ensures HasRow(rows, x) {
      var i :| 0 <= i < |s.rows| && s.rows[i].message == x;
      assert rows[i].message == x;
    }
    forall tx, k | tx in s.open && 0 <= k < |s.open[tx].claimed| ensures s.open[tx].claimed[k].id != m.id {
      assert HoldsPending(s.open[tx], s.rows, s.maxAttempts) && HasRow(s.rows, s.open[tx].claimed[k]);
    }
  }

  lemma ClaimedAreCandidates(s: Sys, limit: nat, list: seq<Message>, k: nat)
    requires IsClaim(s, limit, list) && k < |list|
    ensures HasRow(s.rows, list[k]) && !Locked(s.open, list[k].id)
    ensures exists i :: Candidate(s, i) && s.rows[i].message == list[k]
  {
    assert list[k] in list;
    var i :| Candidate(s, i) && s.rows[i].message == list[k];
    assert s.rows[i].message == list[k];
  }

  lemma ClaimHoldsPending(s: Sys, limit: nat, list: seq<Message>)
    requires UniqueRows(s.rows) && IsClaim(s, limit, list)
    ensures HoldsPending(Batch(limit, list, [], 0), s.rows, s.maxAttempts)
  {
    var b := Batch(limit, list, [], 0);
    forall j, k | 0 <= j < k < |list| ensures list[j].id != list[k].id {
      assert Precedes(list[j], list[k]);
      ClaimedAreCandidates(s, limit, list, j);
      ClaimedAreCandidates(s, limit, list, k);
    }
    forall k | 0 <= k < |list| ensures HasRow(s.rows, list[k]) {
      ClaimedAreCandidates(s, limit, list, k);
    }
    forall i | 0 <= i < |s.rows| && Holds(b, s.rows[i].message.id) ensures Claimable(s.rows[i], s.maxAttempts) {
      var k :| 0 <= k < |list| && list[k].id == s.rows[i].message.id;
      ClaimedAreCandidates(s, limit, list, k);
    }
  }

  lemma ClaimIsExclusive(s: Sys, tx: Id, limit: nat, list: seq<Message>)
    requires Exclusive(s.open) && tx !in s.open && IsClaim(s, limit, list)
    ensures Exclusive(s.open[tx := Batch(limit, list, [], 0)])
  {
    forall x, j, k | x in s.open && 0 <= j < |s.open[x].claimed| && 0 <= k < |list|
      ensures s.open[x].claimed[j].id != list[k].id
    {
      ClaimedAreCandidates(s, limit, list, k);
      assert !Holds(s.open[x], list[k].id);
    }
  }

  lemma ClaimKeeps(s: Sys, tx: Id, limit: nat, list: seq<Message>)
    requires SysInv(s) && Can(s, Claim(tx, limit, list))
    ensures SysInv(After(s, Claim(tx, limit, list)))
  {
    ClaimHoldsPending(s, limit, list);
    ClaimIsExclusive(s, tx, limit, list);
  }

  lemma HonestWithMore(b: Batch, jobs: set<Job>, more: set<Job>)
    requires Honest(b, jobs) && jobs <= more
    ensures Honest(b, more)
  {
  }

  /** A batch that goes on holding the same rows. */
  lemma Reworked(s: Sys, tx: Id, b: Batch, jobs: set<Job>)
    requires SysInv(s) && tx in s.open && b.claimed == s.open[tx].claimed
    requires s.jobs <= jobs && JobsAreRows(jobs, s.rows) && Honest(b, jobs)
    ensures SysInv(s.(open := s.open[tx := b], jobs := jobs))
  {
  }

  lemma AddKeeps(s: Sys, tx: Id)
    requires SysInv(s) && Can(s, Add(tx))
    ensures SysInv(After(s, Add(tx)))
  {
    var s' := After(s, Add(tx));
    var b := s.open[tx];
    assert HasRow(s.rows, b.claimed[|b.outcomes|]);
    HonestWithMore(b, s.jobs, s'.jobs);
    Reworked(s, tx, s'.open[tx], s'.jobs);
  }

  lemma HonestOutcome(b: Batch, jobs: set<Job>, outcome: bool)
    requires Honest(b, jobs) && Busy(b) && (outcome ==> b.received == |QueuesOf(b.claimed[|b.outcomes|])|)
    ensures Honest(b.(outcomes := b.outcomes + [outcome], received := 0), jobs)
  {
  }

  lemma OutcomeKeeps(s: Sys, step: Step)
    requires SysInv(s) && Can(s, step) && (step.Finish? || step.Fail?)
    ensures SysInv(After(s, step))
  {
    var b := s.open[step.tx];
    HonestOutcome(b, s.jobs, step.Finish?);
    Reworked(s, step.tx, b.(outcomes := b.outcomes + [step.Finish?], received := 0), s.jobs);
  }

  /** What a commit does to one row: nothing to those the batch does not hold. */
  lemma MarkedRow(s: Sys, tx: Id, at: Time, i: nat)
    requires SysInv(s) && tx in s.open && !Busy(s.open[tx]) && i < |s.rows|
    ensures var b := s.open[tx];
            var row := s.rows[i];
            && (!Holds(b, row.message.id) ==> Marked(row, b, at) == row)
            && (Holds(b, row.message.id) ==>
                  && Claimable(row, s.maxAttempts)
                  && (Marked(row, b, at) == row.(publishedAt := Some(at)) || Marked(row, b, at) == row.(attempts := row.attempts + 1))
                  && (Marked(row, b, at).publishedAt.Some? ==> EverywhereReceived(s.jobs, row.message)))
  {
  }

  /** Every held row has one outcome. */
  lemma OutcomeOf(b: Batch, k: nat)
    requires Distinct(b.claimed) && k < |b.outcomes| <= |b.claimed|
    ensures WasEnqueued(b, b.claimed[k].id) <==> b.outcomes[k]
    ensures HasFailed(b, b.claimed[k].id) <==> !b.outcomes[k]
  {
  }

  lemma CommitKeeps(s: Sys, tx: Id, at: Time)
    requires SysInv(s) && Can(s, Commit(tx, at))
    ensures SysInv(After(s, Commit(tx, at)))
  {
    var b := s.open[tx];
    var rows := MarkedRows(s.rows, b, at);
    forall i | 0 <= i < |rows|
      ensures rows[i].message == s.rows[i].message && rows[i].attempts <= s.maxAttempts
      ensures rows[i].publishedAt.Some? ==> EverywhereReceived(s.jobs, rows[i].message)
    {
      MarkedRow(s, tx, at, i);
    }
    forall m | HasRow(s.rows, m) ensures HasRow(rows, m) {
      var i :| 0 <= i < |s.rows| && s.rows[i].message == m;
      assert rows[i].message == m;
    }
    forall x | x in s.open && x != tx ensures HoldsPending(s.open[x], rows, s.maxAttempts) {
      var c := s.open[x];
      forall i | 0 <= i < |rows| && Holds(c, rows[i].message.id) ensures Claimable(rows[i], s.maxAttempts) {
        assert Holds(c, s.rows[i].message.id);
        var k :| 0 <= k < |c.claimed| && c.claimed[k].id == s.rows[i].message.id;
        assert !Holds(b, s.rows[i].message.id);
        MarkedRow(s, tx, at, i);
      }
    }
  }

  lemma SysStep(s: Sys, step: Step)
    requires SysInv(s) && Can(s, step)
    ensures SysInv(After(s, step))
  {
    match step
    case Append(m) => AppendKeeps(s, m);
    case Claim(tx, limit, list) => ClaimKeeps(s, tx, limit, list);
    case Commit(tx, at) => CommitKeeps(s, tx, at);
    case Crash(tx) =>
    case Add(tx) => AddKeeps(s, tx);
    case _ => OutcomeKeeps(s, step);
  }
}
