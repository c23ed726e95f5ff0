/** How many sweeps clear a backlog, with other transactions committing during and between them. */
module SweepBacklog {
  import opened Kernel
  import opened Tables
  import opened Machine
  import opened Invariants
  import opened Quotients
  import opened Sweep

  /** What a sweep finds due, and what it leaves due. */
  ghost function Found(w: SweepRun): set<Id> {
    Due(w.start.timers, w.now)
  }

  ghost function LeftDue(w: SweepRun): set<Id> {
    Due(EndOf(w).timers, w.now)
  }

  /** No clock is running and due when the second sweep reads the list that the first one did not know
      as due: none was started and none reached its deadline in between. */
  ghost predicate NoneNew(w: SweepRun, next: SweepRun) {
    forall id :: id in Found(next) ==> id in EndOf(w).timers && EndOf(w).timers[id].dueAt <= w.now
  }

  /** Calm sweeps one after the other, anything else committing during and between them, but no clock
      started and none newly due. */
  ghost predicate SweepsGoOn(sweeps: seq<SweepRun>, limit: nat) {
    forall i :: 0 <= i < |sweeps| ==> GoodAt(sweeps, i, limit)
  }

  ghost predicate GoodAt(sweeps: seq<SweepRun>, i: nat, limit: nat)
    requires i < |sweeps|
  {
    && IsSweep(sweeps[i], limit) && IsCalm(sweeps[i]) && EndOf(sweeps[i]).timers.Keys == sweeps[i].start.timers.Keys
    && (i > 0 ==> Later(EndOf(sweeps[i - 1]), sweeps[i].start) && NoneNew(sweeps[i - 1], sweeps[i]))
  }

  lemma FoundWereLeft(w: SweepRun, next: SweepRun)
    requires Later(EndOf(w), next.start) && NoneNew(w, next)
    ensures Found(next) <= LeftDue(w)
  {
    LaterKeepsClocks(EndOf(w), next.start);
  }

  lemma SweepKeepsInv(w: SweepRun, limit: nat)
    requires Inv(w.start) && IsSweep(w, limit)
    ensures Inv(EndOf(w))
  {
    TurnsKeepInv(w.start, w.turns, w.list, w.stamps, w.flaky);
  }

  lemma {:induction false} SweepsKeepInv(sweeps: seq<SweepRun>, limit: nat, i: nat)
    requires SweepsGoOn(sweeps, limit) && i < |sweeps| && Inv(sweeps[0].start)
    ensures Inv(sweeps[i].start)
  {
    if i > 0 {
      SweepsKeepInv(sweeps, limit, i - 1);
      assert GoodAt(sweeps, i - 1, limit) && GoodAt(sweeps, i, limit);
      SweepKeepsInv(sweeps[i - 1], limit);
      LaterKeepsInv(EndOf(sweeps[i - 1]), sweeps[i].start);
    }
  }

  /** What is left of a backlog of n after m times the limit. */
  function Rest(n: nat, m: nat, limit: nat): nat {
    if m * limit <= n then n - m * limit else 0
  }

  lemma RestOnceMore(n: nat, m: nat, limit: nat)
    ensures Rest(n, m, limit) - Min(limit, Rest(n, m, limit)) == Rest(n, m + 1, limit)
  {
    assert (m + 1) * limit == m * limit + limit;
  }

  function Ceil(n: nat, limit: nat): nat
    requires limit > 0
  {
    (n + limit - 1) / limit
  }

  /** Nothing is left exactly from ceil(n / limit) times on. */
  lemma RestIsNone(n: nat, m: nat, limit: nat)
    requires limit > 0
    ensures Rest(n, m, limit) == 0 <==> m >= Ceil(n, limit)
  {
    var q, r := Ceil(n, limit), (n + limit - 1) % limit;
    assert n + limit - 1 == q * limit + r;
    if m >= q {
      MulMonotone(q, m, limit);
    } else {
      MulMonotone(m + 1, q, limit);
      assert (m + 1) * limit == m * limit + limit;
    }
  }

  /** The backlog each sweep finds. */
  ghost function Backlogs(sweeps: seq<SweepRun>): (r: seq<nat>)
    ensures |r| == |sweeps|
  {
    seq(|sweeps|, i requires 0 <= i < |sweeps| => |Found(sweeps[i])|)
  }

  ghost predicate Falls(backlogs: seq<nat>, limit: nat) {
    forall i :: 0 < i < |backlogs| ==> backlogs[i] <= backlogs[i - 1] - Min(limit, backlogs[i - 1])
  }

  ghost predicate FallsExactly(backlogs: seq<nat>, limit: nat) {
    forall i :: 0 < i < |backlogs| ==> backlogs[i] == backlogs[i - 1] - Min(limit, backlogs[i - 1])
  }

  lemma {:induction false} FallsToRest(backlogs: seq<nat>, limit: nat, m: nat)
    requires Falls(backlogs, limit) && m < |backlogs|
    ensures backlogs[m] <= Rest(backlogs[0], m, limit)
  {
    if m > 0 {
      FallsToRest(backlogs, limit, m - 1);
      RestOnceMore(backlogs[0], m - 1, limit);
    }
  }

  lemma {:induction false} FallsExactlyToRest(backlogs: seq<nat>, limit: nat, m: nat)
    requires FallsExactly(backlogs, limit) && m < |backlogs|
    ensures backlogs[m] == Rest(backlogs[0], m, limit)
  {
    if m > 0 {
      FallsExactlyToRest(backlogs, limit, m - 1);
      RestOnceMore(backlogs[0], m - 1, limit);
    }
  }

  lemma NextFindsLess(w: SweepRun, next: SweepRun, limit: nat)
    requires IsSweep(w, limit) && IsCalm(w) && Inv(w.start) && EndOf(w).timers.Keys == w.start.timers.Keys
    requires Found(next) <= LeftDue(w)
    ensures |Found(next)| <= |Found(w)| - Min(limit, |Found(w)|)
  {
    BacklogDrops(w, limit);
    SubsetSize(Found(next), LeftDue(w));
  }

  lemma BacklogFallsAt(sweeps: seq<SweepRun>, limit: nat, i: nat)
    requires SweepsGoOn(sweeps, limit) && 0 < i < |sweeps| && Inv(sweeps[0].start)
    ensures |Found(sweeps[i])| <= |Found(sweeps[i - 1])| - Min(limit, |Found(sweeps[i - 1])|)
  {
    SweepsKeepInv(sweeps, limit, i - 1);
    assert GoodAt(sweeps, i - 1, limit) && GoodAt(sweeps, i, limit);
    FoundWereLeft(sweeps[i - 1], sweeps[i]);
    NextFindsLess(sweeps[i - 1], sweeps[i], limit);
  }

  lemma BacklogsFall(sweeps: seq<SweepRun>, limit: nat)
    requires SweepsGoOn(sweeps, limit) && (|sweeps| > 0 ==> Inv(sweeps[0].start))
    ensures Falls(Backlogs(sweeps), limit)
  {
    var b := Backlogs(sweeps);
    forall i | 0 < i < |b| ensures b[i] <= b[i - 1] - Min(limit, b[i - 1]) {
      BacklogFallsAt(sweeps, limit, i);
    }
  }

  /** However many stops commit meanwhile, a backlog of n is gone after ceil(n / limit) such sweeps. */
  lemma SweepsClearBacklog(sweeps: seq<SweepRun>, limit: nat, m: nat)
    requires limit > 0 && m < |sweeps| && SweepsGoOn(sweeps, limit) && Inv(sweeps[0].start)
    requires m >= Ceil(|Found(sweeps[0])|, limit)
    ensures Found(sweeps[m]) == {}
  {
    BacklogsFall(sweeps, limit);
    FallsToRest(Backlogs(sweeps), limit, m);
    RestIsNone(Backlogs(sweeps)[0], m, limit);
  }

  /** Nobody else about, during or between the sweeps. */
  ghost predicate NobodyElse(sweeps: seq<SweepRun>) {
    forall i :: 0 <= i < |sweeps| ==> AloneAt(sweeps, i)
  }

  ghost predicate AloneAt(sweeps: seq<SweepRun>, i: nat)
    requires i < |sweeps|
  {
    && IsQuiet(sweeps[i].start, sweeps[i].turns)
    && (i > 0 ==> sweeps[i].start == EndOf(sweeps[i - 1]) && sweeps[i].now >= sweeps[i - 1].now)
  }

  lemma QuietLeaves(w: SweepRun, limit: nat)
    requires IsSweep(w, limit) && IsCalm(w) && Inv(w.start) && IsQuiet(w.start, w.turns)
    ensures |LeftDue(w)| == |Found(w)| - Min(limit, |Found(w)|)
  {
    QuietBacklog(w, limit);
  }

  lemma LeftAreFound(w: SweepRun, next: SweepRun)
    requires next.start == EndOf(w) && next.now >= w.now && Found(next) <= LeftDue(w)
    ensures Found(next) == LeftDue(w)
  {
  }

  lemma BacklogFallsExactlyAt(sweeps: seq<SweepRun>, limit: nat, i: nat)
    requires SweepsGoOn(sweeps, limit) && NobodyElse(sweeps) && 0 < i < |sweeps| && Inv(sweeps[0].start)
    ensures |Found(sweeps[i])| == |Found(sweeps[i - 1])| - Min(limit, |Found(sweeps[i - 1])|)
  {
    SweepsKeepInv(sweeps, limit, i - 1);
    assert GoodAt(sweeps, i - 1, limit) && GoodAt(sweeps, i, limit);
    assert AloneAt(sweeps, i - 1) && AloneAt(sweeps, i);
    FoundWereLeft(sweeps[i - 1], sweeps[i]);
    LeftAreFound(sweeps[i - 1], sweeps[i]);
    QuietLeaves(sweeps[i - 1], limit);
  }

  lemma BacklogsFallExactly(sweeps: seq<SweepRun>, limit: nat)
    requires SweepsGoOn(sweeps, limit) && NobodyElse(sweeps) && (|sweeps| > 0 ==> Inv(sweeps[0].start))
    ensures FallsExactly(Backlogs(sweeps), limit)
  {
    var b := Backlogs(sweeps);
    forall i | 0 < i < |b| ensures b[i] == b[i - 1] - Min(limit, b[i - 1]) {
      BacklogFallsExactlyAt(sweeps, limit, i);
    }
  }

  /** Then the backlog is gone after ceil(n / limit) sweeps and not before. */
  lemma QuietSweepsClearExactly(sweeps: seq<SweepRun>, limit: nat, m: nat)
    requires limit > 0 && m < |sweeps| && SweepsGoOn(sweeps, limit) && NobodyElse(sweeps) && Inv(sweeps[0].start)
    ensures Found(sweeps[m]) == {} <==> m >= Ceil(|Found(sweeps[0])|, limit)
  {
    BacklogsFallExactly(sweeps, limit);
    FallsExactlyToRest(Backlogs(sweeps), limit, m);
    RestIsNone(Backlogs(sweeps)[0], m, limit);
  }
}
