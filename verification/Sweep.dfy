/** The sweep that finds overdue clocks: one reading of the list, then one transaction per clock, with any
    other transactions committing in between. What it marks, what it counts and what it leaves due.
 */
module Sweep {
  import opened Kernel
  import opened TicketDomain
  import opened Tables
  import opened Persistence
  import opened TicketTransactions
  import opened SlaTransactions
  import opened Consumers
  import opened Machine
  import opened Clocks
  import opened Invariants
  import SlaTimer
  import SlaUseCases

  /** Clocks still running although their time has come. */
  ghost function Due(timers: map<Id, TimerRow>, now: Time): set<Id> {
    set id | id in timers && timers[id].IsRunning() && timers[id].dueAt <= now
  }

  function Min(a: nat, b: nat): nat {
    if a <= b then a else b
  }

  /** What `sla_due_timers` returns: the longest overdue, up to the limit, ties in any order. */
  ghost predicate IsDueList(timers: map<Id, TimerRow>, now: Time, limit: nat, list: seq<Id>) {
    && (forall i, j :: 0 <= i < j < |list| ==> list[i] != list[j])
    && (forall i :: 0 <= i < |list| ==> list[i] in Due(timers, now))
    && (forall i, j :: 0 <= i < j < |list| ==> timers[list[i]].dueAt <= timers[list[j]].dueAt)
    && (forall id, i :: id in Due(timers, now) && id !in list && 0 <= i < |list| ==> timers[list[i]].dueAt <= timers[id].dueAt)
    && |list| == Min(limit, |Due(timers, now)|)
  }

  function Elements(list: seq<Id>): set<Id> {
    set id | id in list
  }

  lemma {:induction false} DistinctSize(list: seq<Id>)
    requires forall i, j :: 0 <= i < j < |list| ==> list[i] != list[j]
    ensures |Elements(list)| == |list|
  {
    if list != [] {
      var init, last := list[..|list| - 1], list[|list| - 1];
      DistinctSize(init);
      assert list == init + [last];
      assert Elements(list) == Elements(init) + {last};
      assert last !in Elements(init);
    }
  }

  method LongestOverdue(timers: map<Id, TimerRow>, left: set<Id>) returns (first: Id)
    requires left != {} && left <= timers.Keys
    ensures first in left && forall id :: id in left ==> timers[first].dueAt <= timers[id].dueAt
  {
    first :| first in left;
    var rest := left - {first};
    while rest != {}
      invariant rest <= left && first in left
      invariant forall id :: id in left && id !in rest ==> timers[first].dueAt <= timers[id].dueAt
      decreases rest
    {
      var id :| id in rest;
      rest := rest - {id};
      if timers[id].dueAt < timers[first].dueAt { first := id; }
    }
  }

  method DueTimers(timers: map<Id, TimerRow>, now: Time, limit: nat) returns (list: seq<Id>)
    ensures IsDueList(timers, now, limit, list)
  {
    var left := set id | id in timers && timers[id].IsRunning() && timers[id].dueAt <= now;
    ghost var due := left;
    list := [];
    while left != {} && |list| < limit
      invariant left <= due && forall id :: id in due ==> id in left || id in list
      invariant forall i :: 0 <= i < |list| ==> list[i] in due && list[i] !in left
      invariant forall i, j :: 0 <= i < j < |list| ==> list[i] != list[j]
      invariant forall i, j :: 0 <= i < j < |list| ==> timers[list[i]].dueAt <= timers[list[j]].dueAt
      invariant forall id, i :: id in left && 0 <= i < |list| ==> timers[list[i]].dueAt <= timers[id].dueAt
      invariant |list| <= limit && |left| + |list| == |due|
      decreases left
    {
      var first := LongestOverdue(timers, left);
      list := list + [first];
      left := left - {first};
    }
  }

  // ---------------------------------------------------------------- one turn

  function Verdict(t: Tables, id: Id, s: Stamp): Attempt<(Tables, MarkBreachedOutcome)>
    requires id in t.timers
  {
    MarkBreachedTx(t, MarkBreachedInput(t.timers[id].tenantId, id), s)
  }

  predicate IsMarked(r: Attempt<(Tables, MarkBreachedOutcome)>) {
    r.Ok? && r.value.1.MarkedBreached?
  }

  /** The ticket is there and the message id is not in use. */
  predicate IsFree(t: Tables, id: Id, s: Stamp)
    requires id in t.timers
  {
    FindTicket(t.tickets, t.timers[id].tenantId, t.timers[id].ticketId).Some? && FindMessage(t.outbox, s.eventId).None?
  }

  /** One clock, judged under its own clock reading: only an overdue one is marked, and then nothing stands
      in the way but a missing ticket or a message id in use. */
  lemma VerdictIs(t: Tables, id: Id, s: Stamp)
    requires id in t.timers
    ensures var r := Verdict(t, id, s);
            && (IsMarked(r) ==> SlaTimer.IsOverdue(t.timers[id], s.now) && r.value.0.timers == t.timers[id := t.timers[id].(breachedAt := Some(s.now))])
            && (!IsMarked(r) ==> Outcome(t, r) == t)
            && (SlaTimer.IsOverdue(t.timers[id], s.now) && IsFree(t, id, s) ==> IsMarked(r))
  {
  }

  /** Every clock belongs to a ticket of its tenant. */
  ghost predicate Owned(t: Tables) {
    forall id :: id in t.timers ==> FindTicket(t.tickets, t.timers[id].tenantId, t.timers[id].ticketId).Some?
  }

  lemma OwnedByInvariant(t: Tables)
    requires Inv(t)
    ensures Owned(t)
  {
  }

  /** A verdict is the breach command of the machine, so it keeps the invariant of every reachable state. */
  lemma VerdictKeepsInv(t: Tables, id: Id, s: Stamp)
    requires Inv(t) && id in t.timers
    ensures Inv(Outcome(t, Verdict(t, id, s)))
  {
    InvStep(t, Breach(MarkBreachedInput(t.timers[id].tenantId, id), s));
  }

  /** One turn of the loop: the tables it found, those it left, and whether it counted its clock. */
  datatype Turn = Turn(found: Tables, left: Tables, marked: bool)

  /** A turn passes its whole verdict or, if the connection fails, does nothing. */
  ghost predicate IsTurn(turn: Turn, id: Id, s: Stamp, flaky: bool) {
    && id in turn.found.timers
    && var r := Verdict(turn.found, id, s);
       || (turn.left == Outcome(turn.found, r) && turn.marked == IsMarked(r))
       || (flaky && turn.left == turn.found && !turn.marked)
  }

  /** All a turn does to the clocks: it breaches its own, which was overdue by its reading, and counts it,
      or it changes none. */
  ghost predicate TouchesOne(turn: Turn, id: Id, at: Time) {
    && id in turn.found.timers
    && (turn.marked ==> SlaTimer.IsOverdue(turn.found.timers[id], at))
    && turn.left.timers == if turn.marked then turn.found.timers[id := turn.found.timers[id].(breachedAt := Some(at))] else turn.found.timers
  }

  lemma TurnTouchesOne(turn: Turn, id: Id, s: Stamp, flaky: bool)
    requires IsTurn(turn, id, s, flaky)
    ensures TouchesOne(turn, id, s.now)
  {
    VerdictIs(turn.found, id, s);
  }

  // --------------------------------------------------------------- a sweep

  /** A sweep as it went: the tables when the list was read, the list, what each turn was stamped with, and
      the turns. Between two turns anything else may commit. */
  datatype SweepRun = SweepRun(start: Tables, now: Time, list: seq<Id>, stamps: seq<Stamp>, flaky: bool, turns: seq<Turn>)

  function LastOf(start: Tables, turns: seq<Turn>): Tables {
    if |turns| == 0 then start else turns[|turns| - 1].left
  }

  function EndOf(w: SweepRun): Tables {
    LastOf(w.start, w.turns)
  }

  ghost predicate TurnsFollow(start: Tables, turns: seq<Turn>, list: seq<Id>, stamps: seq<Stamp>, flaky: bool) {
    && |turns| <= |list| && |turns| <= |stamps|
    && (|turns| > 0 ==>
          var n := |turns| - 1;
          && TurnsFollow(start, turns[..n], list, stamps, flaky)
          && Later(LastOf(start, turns[..n]), turns[n].found)
          && IsTurn(turns[n], list[n], stamps[n], flaky))
  }

  ghost predicate IsSweep(w: SweepRun, limit: nat) {
    && IsDueList(w.start.timers, w.now, limit, w.list)
    && |w.turns| == |w.list|
    && TurnsFollow(w.start, w.turns, w.list, w.stamps, w.flaky)
  }

  /** What the sweep answers. */
  function Count(turns: seq<Turn>): nat {
    if |turns| == 0 then 0 else Count(turns[..|turns| - 1]) + if turns[|turns| - 1].marked then 1 else 0
  }

  ghost function MarkedIds(turns: seq<Turn>, list: seq<Id>): set<Id>
    requires |turns| <= |list|
  {
    set i | 0 <= i < |turns| && turns[i].marked :: list[i]
  }

  /** The answer is the number of clocks the sweep marked. */
  lemma {:induction false} CountsWhatItMarked(turns: seq<Turn>, list: seq<Id>)
    requires |turns| <= |list| && forall i, j :: 0 <= i < j < |list| ==> list[i] != list[j]
    ensures Count(turns) == |MarkedIds(turns, list)|
  {
    if |turns| > 0 {
      var n := |turns| - 1;
      CountsWhatItMarked(turns[..n], list);
      assert list[n] !in MarkedIds(turns[..n], list);
      assert MarkedIds(turns, list) == MarkedIds(turns[..n], list) + if turns[n].marked then {list[n]} else {};
    }
  }

  lemma KeepsOn(a: map<Id, TimerRow>, b: map<Id, TimerRow>, c: map<Id, TimerRow>)
    requires KeepsClocks(a, b) && KeepsClocks(b, c)
    ensures KeepsClocks(a, c)
  {
  }

  lemma LaterKeepsClocks(before: Tables, after: Tables)
    requires Later(before, after)
    ensures KeepsClocks(before.timers, after.timers)
  {
    var commands :| EnabledRun(before, commands) && after == Run(before, commands);
    ClocksNeverMove(before, commands);
  }

  lemma LaterKeepsInv(before: Tables, after: Tables)
    requires Inv(before) && Later(before, after)
    ensures Inv(after)
  {
    var commands :| EnabledRun(before, commands) && after == Run(before, commands);
    InvRun(before, commands);
  }

  /** What a sweep and whatever commits meanwhile do to the clocks. */
  ghost predicate ClocksFollow(start: Tables, turns: seq<Turn>, list: seq<Id>, stamps: seq<Stamp>) {
    && |turns| <= |list| && |turns| <= |stamps|
    && (|turns| > 0 ==>
          var n := |turns| - 1;
          && ClocksFollow(start, turns[..n], list, stamps)
          && KeepsClocks(LastOf(start, turns[..n]).timers, turns[n].found.timers)
          && TouchesOne(turns[n], list[n], stamps[n].now))
  }

  lemma {:induction false} TurnsMoveClocks(start: Tables, turns: seq<Turn>, list: seq<Id>, stamps: seq<Stamp>, flaky: bool)
    requires TurnsFollow(start, turns, list, stamps, flaky)
    ensures ClocksFollow(start, turns, list, stamps)
  {
    if |turns| > 0 {
      var n := |turns| - 1;
      TurnsMoveClocks(start, turns[..n], list, stamps, flaky);
      LaterKeepsClocks(LastOf(start, turns[..n]), turns[n].found);
      TurnTouchesOne(turns[n], list[n], stamps[n], flaky);
    }
  }

  /** Clocks keep what they are and what they have come to. */
  lemma {:induction false} TurnsKeepClocks(start: Tables, turns: seq<Turn>, list: seq<Id>, stamps: seq<Stamp>)
    requires ClocksFollow(start, turns, list, stamps)
    ensures KeepsClocks(start.timers, LastOf(start, turns).timers)
    ensures |turns| > 0 ==> KeepsClocks(start.timers, turns[|turns| - 1].found.timers)
  {
    if |turns| > 0 {
      var n := |turns| - 1;
      TurnsKeepClocks(start, turns[..n], list, stamps);
      KeepsOn(start.timers, LastOf(start, turns[..n]).timers, turns[n].found.timers);
      KeepsOn(start.timers, turns[n].found.timers, turns[n].left.timers);
    }
  }

  /** A sweep keeps every invariant of the reachable states, at every turn. */
  lemma {:induction false} TurnsKeepInv(start: Tables, turns: seq<Turn>, list: seq<Id>, stamps: seq<Stamp>, flaky: bool)
    requires Inv(start) && TurnsFollow(start, turns, list, stamps, flaky)
    ensures Inv(LastOf(start, turns)) && (|turns| > 0 ==> Inv(turns[|turns| - 1].found))
  {
    if |turns| > 0 {
      var n := |turns| - 1;
      TurnsKeepInv(start, turns[..n], list, stamps, flaky);
      LaterKeepsInv(LastOf(start, turns[..n]), turns[n].found);
      VerdictKeepsInv(turns[n].found, list[n], stamps[n]);
    }
  }

  /** Settled as a breach at that instant. */
  predicate BreachedAt(timers: map<Id, TimerRow>, id: Id, at: Time) {
    id in timers && timers[id].breachedAt == Some(at) && timers[id].dueAt <= at
  }

  lemma BreachIsKept(before: map<Id, TimerRow>, after: map<Id, TimerRow>, id: Id, at: Time)
    requires KeepsClocks(before, after) && BreachedAt(before, id, at)
    ensures BreachedAt(after, id, at)
  {
  }

  lemma TouchKeepsClocks(turn: Turn, id: Id, at: Time)
    requires TouchesOne(turn, id, at)
    ensures KeepsClocks(turn.found.timers, turn.left.timers)
  {
  }

  /** A clock the sweep marked was running and overdue when it did, and stays breached with that date
      whatever commits afterwards. */
  lemma {:induction false} MarksStay(start: Tables, turns: seq<Turn>, list: seq<Id>, stamps: seq<Stamp>, i: nat)
    requires ClocksFollow(start, turns, list, stamps) && i < |turns| && turns[i].marked
    ensures list[i] in turns[i].found.timers && SlaTimer.IsOverdue(turns[i].found.timers[list[i]], stamps[i].now)
    ensures BreachedAt(LastOf(start, turns).timers, list[i], stamps[i].now)
  {
    var n := |turns| - 1;
    if i < n {
      MarksStay(start, turns[..n], list, stamps, i);
      BreachIsKept(LastOf(start, turns[..n]).timers, turns[n].found.timers, list[i], stamps[i].now);
      TouchKeepsClocks(turns[n], list[n], stamps[n].now);
      BreachIsKept(turns[n].found.timers, turns[n].left.timers, list[i], stamps[i].now);
    }
  }

  /** No transaction throws, no reading is behind the sweep's own, and the ids it generates are new. */
  ghost predicate IsCalm(w: SweepRun) {
    && !w.flaky
    && forall i :: 0 <= i < |w.turns| && i < |w.stamps| ==> w.stamps[i].now >= w.now && FindMessage(w.turns[i].found.outbox, w.stamps[i].eventId).None?
  }

  /** No turn comes before the deadline of its clock or passes over it while it is overdue. */
  ghost predicate MissesNone(turns: seq<Turn>, list: seq<Id>, stamps: seq<Stamp>, now: Time) {
    && |turns| <= |list| && |turns| <= |stamps|
    && forall i :: 0 <= i < |turns| ==> MissesNot(turns[i], list[i], stamps[i].now, now)
  }

  predicate MissesNot(turn: Turn, id: Id, at: Time, now: Time) {
    at >= now && (id in turn.found.timers && SlaTimer.IsOverdue(turn.found.timers[id], at) ==> turn.marked)
  }

  lemma CalmTurnMissesNot(turn: Turn, id: Id, s: Stamp, now: Time)
    requires IsTurn(turn, id, s, false) && Owned(turn.found) && s.now >= now && FindMessage(turn.found.outbox, s.eventId).None?
    ensures MissesNot(turn, id, s.now, now)
  {
    VerdictIs(turn.found, id, s);
  }

  lemma {:induction false} FoundIsOwned(start: Tables, turns: seq<Turn>, list: seq<Id>, stamps: seq<Stamp>, flaky: bool, i: nat)
    requires Inv(start) && TurnsFollow(start, turns, list, stamps, flaky) && i < |turns|
    ensures Owned(turns[i].found)
  {
    if i < |turns| - 1 {
      FoundIsOwned(start, turns[..|turns| - 1], list, stamps, flaky, i);
    } else {
      TurnsKeepInv(start, turns, list, stamps, flaky);
      OwnedByInvariant(turns[i].found);
    }
  }

  lemma {:induction false} TurnAt(start: Tables, turns: seq<Turn>, list: seq<Id>, stamps: seq<Stamp>, flaky: bool, i: nat)
    requires TurnsFollow(start, turns, list, stamps, flaky) && i < |turns|
    ensures IsTurn(turns[i], list[i], stamps[i], flaky)
  {
    if i < |turns| - 1 {
      TurnAt(start, turns[..|turns| - 1], list, stamps, flaky, i);
    }
  }

  lemma CalmSweepMissesNone(w: SweepRun)
    requires TurnsFollow(w.start, w.turns, w.list, w.stamps, w.flaky) && IsCalm(w) && Inv(w.start)
    ensures MissesNone(w.turns, w.list, w.stamps, w.now)
  {
    forall i | 0 <= i < |w.turns| ensures MissesNot(w.turns[i], w.list[i], w.stamps[i].now, w.now) {
      TurnAt(w.start, w.turns, w.list, w.stamps, w.flaky, i);
      FoundIsOwned(w.start, w.turns, w.list, w.stamps, w.flaky, i);
      CalmTurnMissesNot(w.turns[i], w.list[i], w.stamps[i], w.now);
    }
  }

  predicate IsSettled(timers: map<Id, TimerRow>, id: Id) {
    id in timers && !timers[id].IsRunning()
  }

  lemma SettledIsKept(before: map<Id, TimerRow>, after: map<Id, TimerRow>, list: seq<Id>)
    requires KeepsClocks(before, after) && forall i :: 0 <= i < |list| ==> IsSettled(before, list[i])
    ensures forall i :: 0 <= i < |list| ==> IsSettled(after, list[i])
  {
  }

  lemma TurnSettles(start: map<Id, TimerRow>, turn: Turn, id: Id, at: Time, now: Time)
    requires TouchesOne(turn, id, at) && MissesNot(turn, id, at, now)
    requires KeepsClocks(start, turn.found.timers) && id in Due(start, now)
    ensures IsSettled(turn.left.timers, id)
  {
  }

  /** Then no clock the turns have gone through is running, whoever settled it. */
  lemma {:induction false} TurnsSettle(start: Tables, turns: seq<Turn>, list: seq<Id>, stamps: seq<Stamp>, now: Time)
    requires ClocksFollow(start, turns, list, stamps) && MissesNone(turns, list, stamps, now)
    requires forall i :: 0 <= i < |list| ==> list[i] in Due(start.timers, now)
    ensures forall i :: 0 <= i < |turns| ==> IsSettled(LastOf(start, turns).timers, list[..|turns|][i])
  {
    if |turns| > 0 {
      var n := |turns| - 1;
      TurnsSettle(start, turns[..n], list, stamps, now);
      SettledIsKept(LastOf(start, turns[..n]).timers, turns[n].found.timers, list[..n]);
      TouchKeepsClocks(turns[n], list[n], stamps[n].now);
      SettledIsKept(turns[n].found.timers, turns[n].left.timers, list[..n]);
      TurnsKeepClocks(start, turns, list, stamps);
      TurnSettles(start.timers, turns[n], list[n], stamps[n].now, now);
      assert list[..n + 1] == list[..n] + [list[n]];
    }
  }

  lemma ListedSettle(w: SweepRun, limit: nat)
    requires IsDueList(w.start.timers, w.now, limit, w.list) && |w.turns| == |w.list|
    requires ClocksFollow(w.start, w.turns, w.list, w.stamps) && MissesNone(w.turns, w.list, w.stamps, w.now)
    ensures forall i :: 0 <= i < |w.list| ==> IsSettled(EndOf(w).timers, w.list[i])
  {
    TurnsSettle(w.start, w.turns, w.list, w.stamps, w.now);
    assert w.list[..|w.turns|] == w.list;
  }

  /** A calm sweep leaves none of the clocks it listed running. */
  lemma CalmSweepSettles(w: SweepRun, limit: nat)
    requires IsSweep(w, limit) && IsCalm(w) && Inv(w.start)
    ensures ClocksFollow(w.start, w.turns, w.list, w.stamps)
    ensures forall i :: 0 <= i < |w.list| ==> IsSettled(EndOf(w).timers, w.list[i])
  {
    CalmSweepMissesNone(w);
    TurnsMoveClocks(w.start, w.turns, w.list, w.stamps, w.flaky);
    ListedSettle(w, limit);
  }

  lemma {:induction false} SubsetSize(a: set<Id>, b: set<Id>)
    requires a <= b
    ensures |a| <= |b|
  {
    if a != {} {
      var x :| x in a;
      SubsetSize(a - {x}, b - {x});
    }
  }

  lemma SettledAreNotDue(before: map<Id, TimerRow>, after: map<Id, TimerRow>, now: Time, limit: nat, list: seq<Id>)
    requires IsDueList(before, now, limit, list) && KeepsClocks(before, after) && after.Keys == before.Keys
    requires forall i :: 0 <= i < |list| ==> IsSettled(after, list[i])
    ensures Due(after, now) <= Due(before, now) - Elements(list)
    ensures |Due(after, now)| <= |Due(before, now)| - Min(limit, |Due(before, now)|)
  {
    var due, left := Due(before, now), Due(after, now);
    forall id | id in left ensures id in due - Elements(list) {
      assert SameClock(before[id], after[id]);
    }
    DistinctSize(list);
    assert Elements(list) <= due;
    SubsetSize(left, due - Elements(list));
  }

  /** After a calm sweep during which no clock was started, what is due is at most what was due and not
      listed: the backlog has gone down by min(limit, n) at least, and by more if others stopped clocks. */
  lemma BacklogDrops(w: SweepRun, limit: nat)
    requires IsSweep(w, limit) && IsCalm(w) && Inv(w.start) && EndOf(w).timers.Keys == w.start.timers.Keys
    ensures Due(EndOf(w).timers, w.now) <= Due(w.start.timers, w.now) - Elements(w.list)
    ensures |Due(EndOf(w).timers, w.now)| <= |Due(w.start.timers, w.now)| - Min(limit, |Due(w.start.timers, w.now)|)
  {
    CalmSweepSettles(w, limit);
    TurnsKeepClocks(w.start, w.turns, w.list, w.stamps);
    SettledAreNotDue(w.start.timers, EndOf(w).timers, w.now, limit, w.list);
  }

  // ---------------------------------------------------- with nobody else about

  /** Nothing else committed during the sweep. */
  ghost predicate IsQuiet(start: Tables, turns: seq<Turn>) {
    |turns| > 0 ==> IsQuiet(start, turns[..|turns| - 1]) && turns[|turns| - 1].found == LastOf(start, turns[..|turns| - 1])
  }

  /** The clocks that changed. */
  ghost function Marked(before: map<Id, TimerRow>, after: map<Id, TimerRow>): set<Id> {
    set id | id in before && id in after && before[id] != after[id]
  }

  /** Each of these clocks was breached by its own turn, then overdue, and no other changed. */
  ghost predicate Swept(before: map<Id, TimerRow>, after: map<Id, TimerRow>, turns: seq<Turn>, list: seq<Id>, stamps: seq<Stamp>)
    requires |turns| <= |list| && |turns| <= |stamps|
  {
    && after.Keys == before.Keys
    && (forall id :: id in before && id !in list[..|turns|] ==> after[id] == before[id])
    && (forall j :: 0 <= j < |turns| && list[j] in before ==> SweptOne(before[list[j]], after[list[j]], stamps[j].now, turns[j].marked))
  }

  predicate SweptOne(before: TimerRow, after: TimerRow, at: Time, marked: bool) {
    if marked then SlaTimer.IsOverdue(before, at) && after == before.(breachedAt := Some(at)) else after == before
  }

  lemma SweptOneMore(before: map<Id, TimerRow>, turns: seq<Turn>, list: seq<Id>, stamps: seq<Stamp>)
    requires 0 < |turns| <= |list| && |turns| <= |stamps| && forall x, y :: 0 <= x < y < |list| ==> list[x] != list[y]
    requires var n := |turns| - 1;
             Swept(before, turns[n].found.timers, turns[..n], list, stamps) && TouchesOne(turns[n], list[n], stamps[n].now)
    ensures var n := |turns| - 1;
            && Swept(before, turns[n].left.timers, turns, list, stamps)
            && Marked(before, turns[n].left.timers) == Marked(before, turns[n].found.timers) + (if turns[n].marked then {list[n]} else {})
            && list[n] !in Marked(before, turns[n].found.timers)
  {
    var n := |turns| - 1;
    assert list[n] !in list[..n] && list[..n + 1] == list[..n] + [list[n]];
  }

  /** Then the sweep is all that happened to the clocks: it changed listed ones only, each overdue by its
      reading, and answers exactly how many changed. */
  lemma {:induction false} QuietSweepIsExact(start: Tables, turns: seq<Turn>, list: seq<Id>, stamps: seq<Stamp>)
    requires ClocksFollow(start, turns, list, stamps) && IsQuiet(start, turns)
    requires forall x, y :: 0 <= x < y < |list| ==> list[x] != list[y]
    ensures Swept(start.timers, LastOf(start, turns).timers, turns, list, stamps)
    ensures Count(turns) == |Marked(start.timers, LastOf(start, turns).timers)|
  {
    if |turns| > 0 {
      QuietSweepIsExact(start, turns[..|turns| - 1], list, stamps);
      SweptOneMore(start.timers, turns, list, stamps);
    } else {
      assert Marked(start.timers, start.timers) == {};
    }
  }

  lemma OthersStayDue(before: map<Id, TimerRow>, after: map<Id, TimerRow>, now: Time, limit: nat, list: seq<Id>)
    requires IsDueList(before, now, limit, list) && forall i :: 0 <= i < |list| ==> IsSettled(after, list[i])
    requires after.Keys == before.Keys && forall id :: id in before && id !in list ==> after[id] == before[id]
    ensures Due(after, now) == Due(before, now) - Elements(list)
    ensures |Due(after, now)| == |Due(before, now)| - Min(limit, |Due(before, now)|)
  {
    DistinctSize(list);
    assert Elements(list) <= Due(before, now);
  }

  lemma QuietKeepsOthers(w: SweepRun)
    requires ClocksFollow(w.start, w.turns, w.list, w.stamps) && IsQuiet(w.start, w.turns) && |w.turns| == |w.list|
    requires forall x, y :: 0 <= x < y < |w.list| ==> w.list[x] != w.list[y]
    ensures EndOf(w).timers.Keys == w.start.timers.Keys
    ensures forall id :: id in w.start.timers && id !in w.list ==> EndOf(w).timers[id] == w.start.timers[id]
  {
    QuietSweepIsExact(w.start, w.turns, w.list, w.stamps);
    assert w.list[..|w.turns|] == w.list;
  }

  /** And if it is calm it leaves due exactly what was due and not listed. */
  lemma QuietBacklog(w: SweepRun, limit: nat)
    requires IsSweep(w, limit) && IsCalm(w) && Inv(w.start) && IsQuiet(w.start, w.turns)
    ensures Due(EndOf(w).timers, w.now) == Due(w.start.timers, w.now) - Elements(w.list)
    ensures |Due(EndOf(w).timers, w.now)| == |Due(w.start.timers, w.now)| - Min(limit, |Due(w.start.timers, w.now)|)
    ensures EndOf(w).timers.Keys == w.start.timers.Keys
  {
    CalmSweepSettles(w, limit);
    QuietKeepsOthers(w);
    OthersStayDue(w.start.timers, EndOf(w).timers, w.now, limit, w.list);
  }

  // ---------------------------------------------------------------- the code

  /** A clock that was there when the list was read is there at every turn, with its tenant. */
  lemma ListedStays(start: Tables, turns: seq<Turn>, list: seq<Id>, stamps: seq<Stamp>, flaky: bool, found: Tables, id: Id)
    requires TurnsFollow(start, turns, list, stamps, flaky) && Later(LastOf(start, turns), found) && id in start.timers
    ensures id in found.timers && found.timers[id].tenantId == start.timers[id].tenantId
  {
    TurnsMoveClocks(start, turns, list, stamps, flaky);
    TurnsKeepClocks(start, turns, list, stamps);
    LaterKeepsClocks(LastOf(start, turns), found);
  }

  lemma OneMoreTurn(start: Tables, turns: seq<Turn>, list: seq<Id>, stamps: seq<Stamp>, flaky: bool, turn: Turn)
    requires TurnsFollow(start, turns, list, stamps, flaky) && |turns| < |list| && |turns| < |stamps|
    requires Later(LastOf(start, turns), turn.found) && IsTurn(turn, list[|turns|], stamps[|turns|], flaky)
    ensures TurnsFollow(start, turns + [turn], list, stamps, flaky) && LastOf(start, turns + [turn]) == turn.left
    ensures Count(turns + [turn]) == Count(turns) + if turn.marked then 1 else 0
    ensures IsQuiet(start, turns) && turn.found == LastOf(start, turns) ==> IsQuiet(start, turns + [turn])
  {
    assert (turns + [turn])[..|turns|] == turns;
  }

  /** What else commits between the turns, as a function of the turn and of the tables it finds. */
  type Meanwhile = (nat, Tables) -> Tables

  function StampsOf(clocks: seq<Time>, eventIds: seq<Id>, requestId: Option<Id>): seq<Stamp>
    requires |clocks| == |eventIds|
  {
    seq(|clocks|, i requires 0 <= i < |clocks| => Stamp(clocks[i], eventIds[i], requestId))
  }

  class SlaSweeper {
    const db: Database
    const limit: nat

    constructor (db: Database, limit: nat)
      ensures this.db == db && this.limit == limit
    {
      this.db, this.limit := db, limit;
    }

    /** One clock of the list, in its own transaction; a failure is logged and left for the next sweep. */
    method Judge(id: Id, tenantId: Id, at: Time, eventId: Id) returns (marked: bool)
      requires db.active.None? && id in db.committed.timers && db.committed.timers[id].tenantId == tenantId
      modifies db`active, db`committed, db`faultIn
      ensures db.active.None? && db.Flaky() == old(db.Flaky()) && db.requestId == old(db.requestId)
      ensures IsTurn(Turn(old(db.committed), db.committed, marked), id, Stamp(at, eventId, old(db.requestId)), old(db.Flaky()))
    {
      var r := SlaUseCases.MarkSlaBreached(db, MarkBreachedInput(tenantId, id), eventId, at);
      marked := r.Ok? && r.value.MarkedBreached?;
    }

    /** Other processes have their way with the database, then comes the clock's turn. */
    method TakeTurn(i: nat, id: Id, tenantId: Id, at: Time, eventId: Id, meanwhile: Meanwhile) returns (marked: bool, ghost turn: Turn)
      requires db.active.None? && Later(db.committed, meanwhile(i, db.committed))
      requires var timers := meanwhile(i, db.committed).timers; id in timers && timers[id].tenantId == tenantId
      modifies db`active, db`committed, db`faultIn
      ensures db.active.None? && db.Flaky() == old(db.Flaky()) && db.requestId == old(db.requestId)
      ensures turn == Turn(meanwhile(i, old(db.committed)), db.committed, marked)
      ensures IsTurn(turn, id, Stamp(at, eventId, old(db.requestId)), old(db.Flaky()))
    {
      db.committed := meanwhile(i, db.committed);
      ghost var found := db.committed;
      marked := Judge(id, tenantId, at, eventId);
      turn := Turn(found, db.committed, marked);
    }

    /** One sweep. `clocks` are the readings the successive transactions take, `eventIds` the ids they
        generate. What it did is told turn by turn, and it answers how many clocks it marked. */
    method Sweep(now: Time, clocks: seq<Time>, eventIds: seq<Id>, meanwhile: Meanwhile) returns (breaches: nat, ghost w: SweepRun)
      requires db.active.None? && |clocks| == |eventIds| >= limit
      requires forall i: nat, t: Tables :: Later(t, meanwhile(i, t))
      modifies db`active, db`committed, db`faultIn
      ensures db.active.None? && db.Flaky() == old(db.Flaky())
      ensures w.start == old(db.committed) && w.now == now && w.stamps == StampsOf(clocks, eventIds, old(db.requestId)) && w.flaky == old(db.Flaky())
      ensures IsSweep(w, limit) && db.committed == EndOf(w)
      ensures breaches == Count(w.turns) == |MarkedIds(w.turns, w.list)|
      ensures (forall i, t :: meanwhile(i, t) == t) ==> IsQuiet(w.start, w.turns)
    {
      var list := DueTimers(db.committed.timers, now, limit);
      var read := db.committed.timers;
      breaches := 0;
      ghost var start, flaky, stamps := db.committed, db.Flaky(), StampsOf(clocks, eventIds, db.requestId);
      ghost var turns: seq<Turn> := [];
      var i := 0;
      while i < |list|
        invariant 0 <= i <= |list| && |turns| == i
        invariant db.active.None? && db.Flaky() == flaky && db.requestId == old(db.requestId)
        invariant TurnsFollow(start, turns, list, stamps, flaky) && db.committed == LastOf(start, turns)
        invariant breaches == Count(turns)
        invariant (forall i, t :: meanwhile(i, t) == t) ==> IsQuiet(start, turns)
      {
        ListedStays(start, turns, list, stamps, flaky, meanwhile(i, db.committed), list[i]);
        var marked, turn := TakeTurn(i, list[i], read[list[i]].tenantId, clocks[i], eventIds[i], meanwhile);
        if marked {
          breaches := breaches + 1;
        }
        OneMoreTurn(start, turns, list, stamps, flaky, turn);
        turns := turns + [turn];
        i := i + 1;
      }
      w := SweepRun(start, now, list, stamps, flaky, turns);
      CountsWhatItMarked(turns, list);
    }
  }
}
