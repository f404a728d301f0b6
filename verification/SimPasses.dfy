/** What the calls of the simulation driver have done when they return: an advance has called every timer
    with a deadline it reaches, in the order of the vector, whatever the callbacks schedule and cancel; a
    schedule and a cancel have taken effect exactly when they say so. */
module SimPasses {
  import opened Options
  import opened PriorityFifo
  import opened TimerTables
  import opened TimerDrivers
  import opened TimerRuns
  import opened SimRuns
  import L = TimerLedger

  // ------------------------------------------------------- schedule and cancel

  /** A schedule adds its timer under a new handle exactly when it has a callback. */
  lemma ScheduleExactly(d: Driver, when: nat, callback: Option<nat>)
    requires Inv(d) && Enabled(d, ScheduleAt(when, callback))
    ensures var r := Next(d, ScheduleAt(when, callback));
      if callback.None? then r == d else
        && Pending(r) == Pending(d) + {Timer(d.issued + 1, when, callback.value)} && r.due == d.due
        && r.ledger.log == d.ledger.log + [L.Scheduled(d.issued + 1, when)] && r.issued == d.issued + 1
  {
    if callback.Some? {
      hide NewHandle, CounterAfter, Booked, UniqueEntries, Uncancelled, EntryIds, Distinct;
      FreshHandle(d.issued);
      ListSchedules(AsSet(d), d.list, Schedule(when, callback), d.issued);
    }
  }

  /** A cancel takes out the timer with the handle exactly when there is one that has not been collected for
      calling, and else changes nothing. */
  lemma CancelExactly(d: Driver, id: nat)
    requires Inv(d)
    ensures var r := Next(d, CancelHandle(id));
      if forall t :: t in Uncancelled(d.list.events) ==> t.id != id then r == d else
        && Uncancelled(r.list.events) == (set t | t in Uncancelled(d.list.events) && t.id != id) && r.due == d.due
        && r.ledger.log == d.ledger.log + [L.Cancelled(id)]
  {
    ListCancels(AsSet(d), d.list, id, d.issued);
    hide Booked, UniqueEntries, EntryIds, Distinct, FindEntry, CounterAfter;
  }

  // ------------------------------------------------------- the order of the vector

  /** The vector holds the timers in the order they were scheduled in, which is that of their handles. */
  ghost predicate ByHandle(events: seq<Entry>)
  {
    forall i, j :: 0 <= i < j < |events| ==> events[i].timer.id < events[j].timer.id
  }

  lemma ByHandleCons(e: Entry, rest: seq<Entry>)
    requires ByHandle(rest) && forall f :: f in rest ==> e.timer.id < f.timer.id
    ensures ByHandle([e] + rest)
  {
    assert forall i :: 0 <= i < |rest| ==> rest[i] in rest;
  }

  lemma ByHandleTail(events: seq<Entry>)
    requires events != [] && ByHandle(events)
    ensures ByHandle(events[1..]) && forall f :: f in events[1..] ==> events[0].timer.id < f.timer.id
  {
    forall f | f in events[1..] ensures events[0].timer.id < f.timer.id {
      var i :| 1 <= i < |events| && events[i] == f;
    }
  }

  lemma {:induction false} RemainingByHandle(events: seq<Entry>, now: nat)
    requires ByHandle(events)
    ensures ByHandle(Remaining(events, now))
  {
    assert events == [] ==> ByHandle(Remaining(events, now));
    hide ByHandle;
    if events != [] {
      var rest := events[1..];
      ByHandleTail(events);
      RemainingByHandle(rest, now);
      RemainingMembers(rest, now);
      var kept := Remaining(rest, now);
      ByHandleCons(events[0], kept);
      assert [] + kept == kept;
    }
  }

  lemma ByHandleStep(d: Driver, a: Step)
    requires Inv(d) && Enabled(d, a) && ByHandle(d.list.events)
    ensures ByHandle(Next(d, a).list.events)
  {
    match a
    case ScheduleAt(when, callback) =>
      if callback.Some? {
        FreshHandle(d.issued);
        assert forall i :: 0 <= i < |d.list.events| ==> d.list.events[i] in d.list.events;
        hide NewHandle, CounterAfter;
      }
    case AdvanceTo(_) => RemainingByHandle(d.list.events, Next(d, a).now);
    case AdvanceBy(_) => RemainingByHandle(d.list.events, Next(d, a).now);
    case _ =>
  }

  lemma {:induction false} ByHandleRun(d: Driver, run: seq<Step>)
    requires Inv(d) && IsRun(d, run) && ByHandle(d.list.events)
    ensures Inv(Exec(d, run)) && ByHandle(Exec(d, run).list.events)
    decreases |run|
  {
    if run != [] {
      Keep(d, run[0]);
      ByHandleStep(d, run[0]);
      hide Inv, Enabled, Next, ByHandle;
      ByHandleRun(Next(d, run[0]), run[1..]);
    }
  }

  lemma OrderByHandle(events: seq<Entry>, due: seq<Timer>)
    requires ByHandle(events) && InVectorOrder(due, events) && forall t :: t in due ==> t in Uncancelled(events)
    ensures forall a, b :: 0 <= a < b < |due| ==> due[a].id < due[b].id
  {
    forall a, b | 0 <= a < b < |due| ensures due[a].id < due[b].id {
      assert due[a] in due && due[b] in due;
      var j :| 0 <= j < |events| && !events[j].cancelled && events[j].timer == due[a];
      var k :| 0 <= k < |events| && !events[k].cancelled && events[k].timer == due[b];
    }
  }

  // ----------------------------------------------------------------- an advance

  /** The first i of `due` have been called at `now`, in this order, since entry n of the log. */
  ghost predicate Called(log: seq<L.Event>, n: nat, due: seq<Timer>, i: nat, now: nat)
  {
    i <= |due| && exists at: seq<nat> :: CalledAt(log, n, due, i, now, at)
  }

  ghost predicate CalledAt(log: seq<L.Event>, n: nat, due: seq<Timer>, i: nat, now: nat, at: seq<nat>)
    requires i <= |due|
  {
    && |at| == i && (forall x, y :: 0 <= x < y < i ==> at[x] < at[y])
    && forall x :: 0 <= x < i ==> n <= at[x] < |log| && log[at[x]] == L.Fired(due[x].id, now)
  }

  lemma CalledMore(log: seq<L.Event>, n: nat, due: seq<Timer>, i: nat, now: nat, more: seq<L.Event>)
    requires Called(log, n, due, i, now) && log <= more
    ensures Called(more, n, due, i, now)
  {
    var at: seq<nat> :| CalledAt(log, n, due, i, now, at);
    assert CalledAt(more, n, due, i, now, at);
  }

  lemma CalledNext(log: seq<L.Event>, n: nat, due: seq<Timer>, i: nat, now: nat)
    requires Called(log, n, due, i, now) && i < |due| && n <= |log|
    ensures Called(log + [L.Fired(due[i].id, now)], n, due, i + 1, now)
  {
    var at: seq<nat> :| CalledAt(log, n, due, i, now, at);
    assert CalledAt(log + [L.Fired(due[i].id, now)], n, due, i + 1, now, at + [|log|]);
  }

  /** The first i of `due` have been called, and the others are still to be called at `now`. */
  ghost predicate CallsLeft(d: Driver, n: nat, due: seq<Timer>, i: nat, now: nat)
  {
    n <= |d.ledger.log| && Called(d.ledger.log, n, due, i, now) && (i < |due| ==> d.due == due[i..] && d.now == now)
  }

  lemma CallStep(d: Driver, a: Step, n: nat, due: seq<Timer>, i: nat, now: nat)
    requires Enabled(d, a) && CallsLeft(d, n, due, i, now)
    ensures CallsLeft(Next(d, a), n, due, if a.Call? && i < |due| then i + 1 else i, now)
  {
    var r := Next(d, a);
    hide ListStep, Remaining, Collected, Called;
    if a.Call? && i < |due| {
      CalledNext(d.ledger.log, n, due, i, now);
      assert due[i..][0] == due[i] && due[i..][1..] == due[i + 1..];
    } else {
      CalledMore(d.ledger.log, n, due, i, now, r.ledger.log);
    }
  }

  lemma {:induction false} CallRun(d: Driver, run: seq<Step>, n: nat, due: seq<Timer>, i: nat, now: nat)
    requires IsRun(d, run) && CallsLeft(d, n, due, i, now) && Exec(d, run).due == []
    ensures Called(Exec(d, run).ledger.log, n, due, |due|, now)
    decreases |run|
  {
    if run != [] {
      CallStep(d, run[0], n, due, i, now);
      hide Enabled, Next, CallsLeft, Called;
      CallRun(Next(d, run[0]), run[1..], n, due, if run[0].Call? && i < |due| then i + 1 else i, now);
    }
  }

  /** A handle that has been called is pending no more. */
  lemma CalledIsGone(d: Driver, n: nat, due: seq<Timer>, now: nat, t: Timer)
    requires Inv(d) && Called(d.ledger.log, n, due, |due|, now) && t in due
    ensures t !in Pending(d)
  {
    var at: seq<nat> :| CalledAt(d.ledger.log, n, due, |due|, now, at);
    var x :| 0 <= x < |due| && due[x] == t;
    assert L.Ends(d.ledger.log, at[x], t.id);
    assert !L.Waits(d.ledger.log, t.id, t.when);
  }

  /** The time an advance leads to: never back, and nowhere if it would wrap. */
  ghost function TimeAfter(now: nat, a: Step): nat
    requires a.AdvanceTo? || a.AdvanceBy?
  {
    var time := if a.AdvanceTo? then a.time else now + a.delta;
    if now <= time < TIME_SPAN then time else now
  }

  lemma AdvanceCollects(d: Driver, a: Step)
    requires Inv(d) && d.now < TIME_SPAN && Enabled(d, a) && (a.AdvanceTo? || a.AdvanceBy?)
    ensures var m := Next(d, a);
      && m.now == TimeAfter(d.now, a)
      && (forall t :: t in m.due <==> t in Pending(d) && t.when <= m.now)
      && InVectorOrder(m.due, d.list.events) && m.ledger == d.ledger
      && (forall t :: t in m.due ==> t in Uncancelled(d.list.events))
  {
    var m := Next(d, a);
    CollectedExact(d.list.events, m.now);
    CollectedInOrder(d.list.events, m.now);
    hide Uncancelled, Collected, Remaining, InVectorOrder, Distinct, Booked, CounterAfter;
  }

  /** In every run, once the calls of an advance are done: with `due` the timers that were pending before it for
      the new time or earlier, in the order they were scheduled in, each of them has been called at the new time
      and in that order, and none is pending any more. */
  lemma AdvanceCallsAllDue(d0: Driver, before: seq<Step>, d: Driver, a: Step, run: seq<Step>, r: Driver)
    returns (due: seq<Timer>)
    requires Initial(d0) && IsRun(d0, before) && d == Exec(d0, before) && Enabled(d, a)
    requires (a.AdvanceTo? || a.AdvanceBy?) && IsRun(Next(d, a), run) && r == Exec(Next(d, a), run) && r.due == []
    ensures var now := TimeAfter(d.now, a);
      && (forall t :: t in due <==> t in Pending(d) && t.when <= now)
      && (forall a, b :: 0 <= a < b < |due| ==> due[a].id < due[b].id)
      && Called(r.ledger.log, |d.ledger.log|, due, |due|, now)
      && (forall t :: t in due ==> t !in Pending(r))
  {
    hide Enabled, Next, Inv, InVectorOrder, Distinct, Pending;
    InitialInv(d0);
    ByHandleRun(d0, before);
    TimeMonotone(d0, before);
    var m := Next(d, a);
    Keep(d, a);
    KeepRun(m, run);
    AdvanceCollects(d, a);
    due := m.due;
    OrderByHandle(d.list.events, due);
    assert CalledAt(m.ledger.log, |d.ledger.log|, due, 0, m.now, []);
    assert due[0..] == due;
    CallRun(m, run, |d.ledger.log|, due, 0, m.now);
    forall t | t in due ensures t !in Pending(r) {
      CalledIsGone(r, |d.ledger.log|, due, m.now, t);
    }
  }
}
