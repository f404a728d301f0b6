/** Runs of the simulation driver in virtual time: a pass first takes the due events out of
    the vector, then calls them one by one, with schedules and cancels in between. */
module SimRuns {
  import opened Options
  import opened PriorityFifo
  import opened TimerTables
  import opened TimerDrivers
  import opened TimerRuns
  import L = TimerLedger

  const TIME_SPAN: nat := 0x1_0000_0000_0000_0000

  /** `due` are the events taken out and not yet called; `ledger` is history, not state. */
  datatype Driver = Driver(
    list: EventList,
    due: seq<Timer>,
    now: nat,
    issued: nat,
    ledger: L.Ledger
  )

  datatype Step =
    | ScheduleAt(when: nat, callback: Option<nat>)
    | CancelHandle(id: nat)
    | AdvanceTo(time: nat)
    | AdvanceBy(delta: nat)
    | Call

  /** `advance_to` up to its pass: time is clamped, and what is due by then is collected. */
  ghost function Advanced(d: Driver, time: nat): Driver
  {
    var now := if time < d.now then d.now else time;
    d.(now := now, list := d.list.(events := Remaining(d.list.events, now)), due := Collected(d.list.events, now))
  }

  ghost predicate Enabled(d: Driver, a: Step)
  {
    match a
    case ScheduleAt(_, _) => d.issued + 1 < ID_SPAN                           // no handle wrap-around
    case CancelHandle(_) => true
    case AdvanceTo(time) => d.due == [] && time < TIME_SPAN
    case AdvanceBy(delta) => d.due == [] && delta < TIME_SPAN
    case Call => d.due != []
  }

  ghost function Next(d: Driver, a: Step): Driver
    requires Enabled(d, a)
  {
    match a
    case ScheduleAt(when, callback) =>
      var (list, out) := ListStep(d.list, Schedule(when, callback));
      if out == Handle(0) then d else d.(list := list, issued := d.issued + 1, ledger := L.Add(d.ledger, out.id, when))
    case CancelHandle(id) =>
      var (list, out) := ListStep(d.list, Cancel(id));
      if out == Cancelled(false) then d else d.(list := list, ledger := L.End(d.ledger, L.Cancelled(id)))
    case AdvanceTo(time) => Advanced(d, time)
    case AdvanceBy(delta) => Advanced(d, (d.now + delta) % TIME_SPAN)
    case Call =>
      d.(due := d.due[1..], ledger := L.End(d.ledger, L.Fired(d.due[0].id, d.now)))
  }

  ghost predicate IsRun(d: Driver, run: seq<Step>)
    decreases |run|
  {
    run != [] ==> Enabled(d, run[0]) && IsRun(Next(d, run[0]), run[1..])
  }

  ghost function Exec(d: Driver, run: seq<Step>): Driver
    requires IsRun(d, run)
    decreases |run|
  {
    if run == [] then d else Exec(Next(d, run[0]), run[1..])
  }

  ghost predicate Initial(d: Driver)
  {
    d.list == EventList([], 1) && d.due == [] && d.now < TIME_SPAN && d.issued == 0 && d.ledger == L.Ledger(map[], [])
  }

  // ------------------------------------------------------------------------ time

  /** Simulated time never goes backwards: an advance that would wrap leaves it where it is. */
  lemma AdvanceByExact(d: Driver, delta: nat)
    requires d.now < TIME_SPAN && Enabled(d, AdvanceBy(delta))
    ensures Next(d, AdvanceBy(delta)).now == if d.now + delta < TIME_SPAN then d.now + delta else d.now
  {}

  lemma {:induction false} TimeMonotone(d: Driver, run: seq<Step>)
    requires IsRun(d, run) && d.now < TIME_SPAN
    ensures d.now <= Exec(d, run).now < TIME_SPAN
    decreases |run|
  {
    if run != [] {
      if run[0].AdvanceBy? { AdvanceByExact(d, run[0].delta); }
      hide ListStep, Remaining, Collected;
      TimeMonotone(Next(d, run[0]), run[1..]);
    }
  }

  // ------------------------------------------------------------------- invariant

  ghost function Pending(d: Driver): set<Timer>
  {
    Uncancelled(d.list.events) + set t | t in d.due
  }

  ghost predicate ListInv(d: Driver)
  {
    d.issued < ID_SPAN && Issued(AsSet(d), d.issued) && ListHolds(AsSet(d), d.list, d.issued)
  }

  ghost function AsSet(d: Driver): TimerSet
  {
    TimerSet(Uncancelled(d.list.events), d.list.nextId)
  }

  ghost predicate DueInv(d: Driver)
  {
    && Distinct(d.due)
    && (forall t :: t in d.due ==> Due(t, d.now) && t.id !in EntryIds(d.list.events))
  }

  ghost predicate Inv(d: Driver)
  {
    ListInv(d) && DueInv(d) && Booked(Pending(d), d.ledger, d.issued)
  }

  /** No timer is both in the vector and taken out. */
  lemma Apart(d: Driver)
    requires DueInv(d)
    ensures forall t :: t in d.due ==> t !in Uncancelled(d.list.events)
  {
    forall t | t in Uncancelled(d.list.events) ensures t !in d.due {
      assert t.id in EntryIds(d.list.events);
    }
  }

  lemma ScheduleKeeps(d: Driver, when: nat, callback: Option<nat>)
    requires Inv(d) && Enabled(d, ScheduleAt(when, callback)) && callback.Some?
    ensures Inv(Next(d, ScheduleAt(when, callback)))
  {
    hide NewHandle, CounterAfter, Booked, UniqueEntries, Uncancelled, EntryIds, Distinct;
    var op := Schedule(when, callback);
    var t, r := Timer(d.issued + 1, when, callback.value), Next(d, ScheduleAt(when, callback));
    FreshHandle(d.issued);
    ListSchedules(AsSet(d), d.list, op, d.issued);
    SetStepIssues(AsSet(d), op, d.issued);
    assert SetStep(AsSet(d), op).0 == AsSet(r);
    assert Pending(r) == Pending(d) + {t};
    BookAdd(Pending(d), d.ledger, d.issued, t);
    DueBelow(d, t);
  }

  lemma DueBelow(d: Driver, t: Timer)
    requires Inv(d) && t.id == d.issued + 1
    ensures DueInv(d.(list := d.list.(events := d.list.events + [Entry(t, false)])))
  {
    hide L.Inv, L.Begins;
    forall u | u in d.due ensures u.id != t.id { assert u in Pending(d); }
    var after := d.list.events + [Entry(t, false)];
    assert forall i :: 0 <= i < |d.list.events| ==> after[i] == d.list.events[i];
  }

  lemma MarkedIds(events: seq<Entry>, i: nat)
    requires i < |events|
    ensures EntryIds(events[i := events[i].(cancelled := true)]) == EntryIds(events)
  {
    var r := events[i := events[i].(cancelled := true)];
    assert forall j :: 0 <= j < |events| ==> r[j].timer == events[j].timer;
    forall id | id in EntryIds(events) ensures id in EntryIds(r) {
      var j :| 0 <= j < |events| && events[j].timer.id == id;
      assert r[j].timer.id == id;
    }
  }

  lemma FoundLive(events: seq<Entry>, id: nat)
    requires FindEntry(events, id) < |events|
    ensures events[FindEntry(events, id)].timer in Uncancelled(events)
  {}

  lemma CancelKeeps(d: Driver, id: nat)
    requires Inv(d) && id != 0 && FindEntry(d.list.events, id) < |d.list.events|
    ensures Inv(Next(d, CancelHandle(id)))
  {
    hide CounterAfter, Booked, UniqueEntries, Uncancelled, EntryIds, Distinct, FindEntry;
    var i, r := FindEntry(d.list.events, id), Next(d, CancelHandle(id));
    var t := d.list.events[i].timer;
    FoundLive(d.list.events, id);
    Apart(d);
    MarkedIds(d.list.events, i);
    ListCancels(AsSet(d), d.list, id, d.issued);
    SetStepIssues(AsSet(d), Cancel(id), d.issued);
    assert Uncancelled(r.list.events) == Uncancelled(d.list.events) - {t};
    assert Pending(r) == Pending(d) - {t};
    BookEnd(Pending(d), d.ledger, d.issued, t, L.Cancelled(id));
  }

  lemma AdvanceKeeps(d: Driver, time: nat)
    requires Inv(d) && d.due == []
    ensures Inv(Advanced(d, time))
  {
    var r := Advanced(d, time);
    hide CounterAfter, Booked, UniqueEntries, Uncancelled, EntryIds, Remaining, Collected;
    ListPasses(AsSet(d), d.list, r.now, d.issued);
    SetStepIssues(AsSet(d), Pass(r.now), d.issued);
    CollectedExact(d.list.events, r.now);
    forall t | t in r.due ensures t.id !in EntryIds(r.list.events) {
      TakenOut(d.list.events, r.now, t);
    }
    assert Uncancelled(r.list.events) == set t | t in Uncancelled(d.list.events) && !Due(t, r.now);
    assert Pending(r) == Pending(d);
  }

  lemma FirstOut(due: seq<Timer>)
    requires due != [] && Distinct(due)
    ensures due[0] in due && Distinct(due[1..]) && due[0] !in due[1..]
    ensures forall t :: t in due <==> t == due[0] || t in due[1..]
  {}

  lemma CallKeeps(d: Driver)
    requires Inv(d) && Enabled(d, Call)
    ensures Inv(Next(d, Call))
  {
    hide Booked, Uncancelled, Distinct, EntryIds, UniqueEntries, CounterAfter;
    var t, r := d.due[0], Next(d, Call);
    FirstOut(d.due);
    Apart(d);
    assert Pending(r) == Pending(d) - {t};
    BookEnd(Pending(d), d.ledger, d.issued, t, L.Fired(t.id, d.now));
  }

  lemma Keep(d: Driver, a: Step)
    requires Inv(d) && Enabled(d, a)
    ensures Inv(Next(d, a))
  {
    match a
    case ScheduleAt(when, callback) => if callback.Some? { ScheduleKeeps(d, when, callback); }
    case CancelHandle(id) => if id != 0 && FindEntry(d.list.events, id) < |d.list.events| { CancelKeeps(d, id); }
    case AdvanceTo(time) => AdvanceKeeps(d, time);
    case AdvanceBy(delta) => AdvanceKeeps(d, (d.now + delta) % TIME_SPAN);
    case Call => CallKeeps(d);
  }

  lemma {:induction false} KeepRun(d: Driver, run: seq<Step>)
    requires Inv(d) && IsRun(d, run)
    ensures Inv(Exec(d, run))
    decreases |run|
  {
    if run != [] {
      Keep(d, run[0]);
      hide Inv, Enabled, Next;
      KeepRun(Next(d, run[0]), run[1..]);
    }
  }

  lemma InitialInv(d: Driver)
    requires Initial(d)
    ensures Inv(d)
  {
    assert Pending(d) == {};
  }

  /** Over every run, whatever the callbacks schedule and cancel: each handle fires at most once, never
      before its deadline and never after a cancel of it returned true; and the driver holds exactly
      the timers that were scheduled and have neither fired nor been cancelled. */
  lemma HandlesFaithful(d0: Driver, run: seq<Step>)
    requires Initial(d0) && IsRun(d0, run)
    ensures var d := Exec(d0, run);
      && L.Faithful(d.ledger.log)
      && forall id, when :: L.Waits(d.ledger.log, id, when) <==>
         exists t :: t in Pending(d) && t.id == id && t.when == when
  {
    InitialInv(d0);
    KeepRun(d0, run);
    var d := Exec(d0, run);
    forall id, when
      ensures L.Waits(d.ledger.log, id, when) <==> exists t :: t in Pending(d) && t.id == id && t.when == when
    {
      assert Booked(Pending(d), d.ledger, d.issued);
      if L.Waits(d.ledger.log, id, when) {
        assert id in d.ledger.pending && d.ledger.pending[id] == when;
        var t :| t in Pending(d) && t.id == id;
      }
    }
  }
}
