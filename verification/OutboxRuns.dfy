/** What holds of the outbox over every run: nothing is lost, nothing is held twice, and draining ends. */
module OutboxRuns {
  import opened Kernel
  import opened TicketDomain
  import opened OutboxMachine

  ghost predicate CanRun(s: Sys, steps: seq<Step>)
    decreases |steps|, 0
  {
    |steps| > 0 ==> CanRun(s, steps[..|steps| - 1]) && Can(SysAfter(s, steps[..|steps| - 1]), steps[|steps| - 1])
  }

  ghost function SysAfter(s: Sys, steps: seq<Step>): Sys
    requires CanRun(s, steps)
    decreases |steps|, 1
  {
    if |steps| == 0 then s else After(SysAfter(s, steps[..|steps| - 1]), steps[|steps| - 1])
  }

  lemma OneMore(s: Sys, steps: seq<Step>, step: Step)
    requires CanRun(s, steps) && Can(SysAfter(s, steps), step)
    ensures CanRun(s, steps + [step]) && SysAfter(s, steps + [step]) == After(SysAfter(s, steps), step)
  {
    assert (steps + [step])[..|steps|] == steps;
  }

  /** A message once appended keeps its place and its content; a published one stays published, with its
      date; attempts only grow; and queues only receive. */
  ghost predicate Advanced(before: Sys, after: Sys) {
    && before.maxAttempts == after.maxAttempts
    && before.jobs <= after.jobs
    && |before.rows| <= |after.rows|
    && forall i :: 0 <= i < |before.rows| ==>
                     && after.rows[i].message == before.rows[i].message
                     && after.rows[i].attempts >= before.rows[i].attempts
                     && (before.rows[i].publishedAt.Some? ==> after.rows[i] == before.rows[i])
  }

  lemma StepAdvances(s: Sys, step: Step)
    requires SysInv(s) && Can(s, step)
    ensures Advanced(s, After(s, step))
  {
  }

  lemma {:induction false} RunKeeps(s: Sys, steps: seq<Step>)
    requires SysInv(s) && CanRun(s, steps)
    ensures SysInv(SysAfter(s, steps)) && Advanced(s, SysAfter(s, steps))
  {
    if |steps| > 0 {
      var init := steps[..|steps| - 1];
      RunKeeps(s, init);
      SysStep(SysAfter(s, init), steps[|steps| - 1]);
      StepAdvances(SysAfter(s, init), steps[|steps| - 1]);
    }
  }

  function Idle(maxAttempts: nat): Sys {
    Sys(maxAttempts, [], map[], {})
  }

  /** Under any interleaving of publishers, queue failures and crashes, starting from an empty outbox:
      whatever is marked published has reached every queue it is for, whole; a queue has nothing but
      messages of the outbox that are routed to it; and no row is held by two publishers. */
  lemma NoEventIsLost(maxAttempts: nat, steps: seq<Step>)
    requires CanRun(Idle(maxAttempts), steps)
    ensures var s := SysAfter(Idle(maxAttempts), steps);
            && NothingLost(s.rows, s.jobs)
            && JobsAreRows(s.jobs, s.rows)
            && Exclusive(s.open)
            && AttemptsBounded(s.rows, maxAttempts)
  {
    RunKeeps(Idle(maxAttempts), steps);
  }

  /** A crash loses nothing: what the publisher held is as it was, and can be claimed again. */
  lemma CrashGivesBack(s: Sys, tx: Id)
    requires SysInv(s) && tx in s.open
    ensures var s' := After(s, Crash(tx));
            && s'.rows == s.rows && s'.jobs == s.jobs
            && forall m :: m in s.open[tx].claimed ==> exists i :: Candidate(s', i) && s'.rows[i].message == m
  {
  }

  /** A tick that claims nothing, with nobody else publishing, means there is nothing left to do: every
      row is published or has used up its attempts. And only then. */
  lemma DrainedIff(s: Sys, limit: nat)
    requires SysInv(s) && s.open == map[] && limit > 0
    ensures IsClaim(s, limit, []) <==> forall i :: 0 <= i < |s.rows| ==> s.rows[i].publishedAt.Some? || s.rows[i].attempts == s.maxAttempts
  {
  }

  // ----------------------------------------------------------- the work left

  /** Attempts a row still has before it. */
  function Weight(row: Row, maxAttempts: nat): nat {
    if Claimable(row, maxAttempts) then maxAttempts - row.attempts else 0
  }

  ghost function WorkLeft(rows: seq<Row>, maxAttempts: nat): nat {
    if |rows| == 0 then 0 else WorkLeft(rows[..|rows| - 1], maxAttempts) + Weight(rows[|rows| - 1], maxAttempts)
  }

  ghost function HeldIds(rows: seq<Row>, b: Batch): set<Id> {
    set i | 0 <= i < |rows| && Holds(b, rows[i].message.id) :: rows[i].message.id
  }

  /** If every held row loses some work and no row gains any, the work drops by the rows held. */
  lemma {:induction false} WorkDrops(rows: seq<Row>, after: seq<Row>, b: Batch, maxAttempts: nat)
    requires UniqueRows(rows) && |after| == |rows|
    requires forall i :: 0 <= i < |rows| ==> Weight(after[i], maxAttempts) + (if Holds(b, rows[i].message.id) then 1 else 0) <= Weight(rows[i], maxAttempts)
    ensures WorkLeft(after, maxAttempts) + |HeldIds(rows, b)| <= WorkLeft(rows, maxAttempts)
  {
    if |rows| > 0 {
      var n := |rows| - 1;
      WorkDrops(rows[..n], after[..n], b, maxAttempts);
      HeldOneMore(rows, b);
    }
  }

  lemma HeldOneMore(rows: seq<Row>, b: Batch)
    requires UniqueRows(rows) && |rows| > 0
    ensures |HeldIds(rows, b)| == |HeldIds(rows[..|rows| - 1], b)| + if Holds(b, rows[|rows| - 1].message.id) then 1 else 0
  {
    var n := |rows| - 1;
    var init, id := rows[..n], rows[n].message.id;
    forall x ensures x in HeldIds(rows, b) <==> x in HeldIds(init, b) || (x == id && Holds(b, id)) {
      if x in HeldIds(rows, b) {
        var i :| 0 <= i < |rows| && Holds(b, rows[i].message.id) && rows[i].message.id == x;
        assert i < n ==> init[i] == rows[i];
      }
      if x in HeldIds(init, b) {
        var i :| 0 <= i < n && Holds(b, init[i].message.id) && init[i].message.id == x;
        assert rows[i] == init[i];
      }
    }
    assert id !in HeldIds(init, b);
    assert HeldIds(rows, b) == HeldIds(init, b) + if Holds(b, id) then {id} else {};
  }

  lemma {:induction false} IdsOfDistinct(list: seq<Message>)
    requires Distinct(list)
    ensures |set k | 0 <= k < |list| :: list[k].id| == |list|
  {
    if |list| > 0 {
      var init := list[..|list| - 1];
      IdsOfDistinct(init);
      var ids := set k | 0 <= k < |init| :: init[k].id;
      assert (set k | 0 <= k < |list| :: list[k].id) == ids + {list[|list| - 1].id};
    }
  }

  lemma HeldAreClaimed(rows: seq<Row>, b: Batch, maxAttempts: nat)
    requires HoldsPending(b, rows, maxAttempts)
    ensures |HeldIds(rows, b)| == |b.claimed|
  {
    IdsOfDistinct(b.claimed);
    var ids := set k | 0 <= k < |b.claimed| :: b.claimed[k].id;
    forall id | id in ids ensures id in HeldIds(rows, b) {
      var k :| 0 <= k < |b.claimed| && b.claimed[k].id == id;
      assert HasRow(rows, b.claimed[k]);
      var i :| 0 <= i < |rows| && rows[i].message == b.claimed[k];
      assert Holds(b, rows[i].message.id);
    }
    assert HeldIds(rows, b) == ids;
  }

  /** A committed batch lowers the work left by at least the rows it claimed. */
  lemma CommitLowersWork(s: Sys, tx: Id, at: Time)
    requires SysInv(s) && Can(s, Commit(tx, at))
    ensures WorkLeft(After(s, Commit(tx, at)).rows, s.maxAttempts) + |s.open[tx].claimed| <= WorkLeft(s.rows, s.maxAttempts)
  {
    var after := After(s, Commit(tx, at)).rows;
    forall i | 0 <= i < |s.rows|
      ensures Weight(after[i], s.maxAttempts) + (if Holds(s.open[tx], s.rows[i].message.id) then 1 else 0) <= Weight(s.rows[i], s.maxAttempts)
    {
      MarkedRow(s, tx, at, i);
    }
    WorkDrops(s.rows, after, s.open[tx], s.maxAttempts);
    HeldAreClaimed(s.rows, s.open[tx], s.maxAttempts);
  }

  /** Rows claimed by the batches a run commits. */
  ghost function Dealt(s: Sys, steps: seq<Step>): nat
    requires CanRun(s, steps)
  {
    if |steps| == 0 then 0
    else
      var init, step := steps[..|steps| - 1], steps[|steps| - 1];
      Dealt(s, init) + DealtBy(SysAfter(s, init), step)
  }

  ghost function DealtBy(s: Sys, step: Step): nat
    requires Can(s, step)
  {
    if step.Commit? then |s.open[step.tx].claimed| else 0
  }

  function Appended(steps: seq<Step>): nat {
    if |steps| == 0 then 0
    else Appended(steps[..|steps| - 1]) + if steps[|steps| - 1].Append? then 1 else 0
  }

  /** The attempts the appended messages brought. */
  ghost function Allowance(maxAttempts: nat, steps: seq<Step>): nat {
    if |steps| == 0 then 0
    else Allowance(maxAttempts, steps[..|steps| - 1]) + if steps[|steps| - 1].Append? then maxAttempts else 0
  }

  lemma {:induction false} AllowanceIs(maxAttempts: nat, steps: seq<Step>)
    ensures Allowance(maxAttempts, steps) == maxAttempts * Appended(steps)
  {
    if |steps| > 0 {
      AllowanceIs(maxAttempts, steps[..|steps| - 1]);
      OneMoreTime(maxAttempts, Appended(steps[..|steps| - 1]));
    }
  }

  lemma {:induction false} DealtWithinAllowance(s: Sys, steps: seq<Step>)
    requires SysInv(s) && CanRun(s, steps)
    ensures WorkLeft(SysAfter(s, steps).rows, s.maxAttempts) + Dealt(s, steps) <= WorkLeft(s.rows, s.maxAttempts) + Allowance(s.maxAttempts, steps)
  {
    if |steps| > 0 {
      var init, step := steps[..|steps| - 1], steps[|steps| - 1];
      DealtWithinAllowance(s, init);
      RunKeeps(s, init);
      StepWork(SysAfter(s, init), step);
    }
  }

  /** Whatever publishers and crashes do, committed batches deal with no more rows than the work there
      was, plus the attempts of every message appended meanwhile. So without appends draining ends. */
  lemma DealtIsBounded(s: Sys, steps: seq<Step>)
    requires SysInv(s) && CanRun(s, steps)
    ensures WorkLeft(SysAfter(s, steps).rows, s.maxAttempts) + Dealt(s, steps) <= WorkLeft(s.rows, s.maxAttempts) + s.maxAttempts * Appended(steps)
  {
    DealtWithinAllowance(s, steps);
    AllowanceIs(s.maxAttempts, steps);
  }

  lemma OneMoreTime(n: nat, times: nat)
    ensures n * (times + 1) == n * times + n
  {
  }

  /** A commit pays for what it deals with; only an append brings work. */
  lemma StepWork(s: Sys, step: Step)
    requires SysInv(s) && Can(s, step)
    ensures WorkLeft(After(s, step).rows, s.maxAttempts) + DealtBy(s, step) <= WorkLeft(s.rows, s.maxAttempts) + if step.Append? then s.maxAttempts else 0
  {
    match step
    case Append(m) => assert (s.rows + [Row(m, None, 0)])[..|s.rows|] == s.rows;
    case Commit(tx, at) => CommitLowersWork(s, tx, at);
    case _ =>
  }
}
