/** Runs of the tickless driver, and with the arming ignored of the periodic one. */
module SlotRuns {
  import opened Options
  import opened TimerTables
  import opened TimerDrivers
  import opened TimerRuns
  import L = TimerLedger

  /** The port's value for no deadline. */
  const NEVER: nat := 0xFFFF_FFFF_FFFF_FFFF

  /** `cursor` is the next slot of a pass in progress; `ledger` is history, not state. */
  datatype Driver = Driver(
    table: SlotTable,
    cursor: Option<nat>,
    now: nat,                  // read when the pass began
    started: bool,
    armed: nat,
    issued: nat,
    ledger: L.Ledger
  )

  datatype Step =
    | ScheduleAt(when: nat, callback: Option<nat>)
    | CancelHandle(id: nat)
    | BeginPass(now: nat)
    | Visit
    | EndPass
    | StartDriver
    | StopDriver

  /** `rearm_locked`'s scan. */
  method EarliestOf(slots: seq<Timer>) returns (earliest: nat)
    ensures earliest == Earliest(slots)
  {
    earliest := NEVER;
    var i := 0;
    while i < |slots|
      invariant i <= |slots| && earliest == Earliest(slots[..i])
    {
      assert slots[..i + 1][..i] == slots[..i];
      if slots[i].id != 0 && slots[i].when < earliest { earliest := slots[i].when; }
      i := i + 1;
    }
    assert slots[..i] == slots;
  }

  /** The least deadline of a live slot below NEVER, else NEVER. */
  function Earliest(slots: seq<Timer>): (e: nat)
    ensures e <= NEVER
    ensures forall i :: 0 <= i < |slots| && slots[i].id != 0 ==> e <= slots[i].when || slots[i].when >= NEVER
    ensures e < NEVER ==> exists i :: 0 <= i < |slots| && slots[i].id != 0 && slots[i].when == e
  {
    if slots == [] then NEVER else
      var n := |slots| - 1;
      var e := Earliest(slots[..n]);
      if slots[n].id != 0 && slots[n].when < e then slots[n].when else e
  }

  /** `rearm_locked`: the port keeps the earlier of two deadlines, and forgets all on disarm. */
  ghost function Rearm(d: Driver): Driver
  {
    var e := Earliest(d.table.slots);
    d.(armed := if e == NEVER then NEVER else if e < d.armed then e else d.armed)
  }

  /** The port was armed for `was` and has been re-armed: for nothing if no live timer has a finite deadline,
      else for the earliest of `was` and the live deadlines. */
  ghost predicate ArmedFor(slots: seq<Timer>, was: nat, armed: nat)
  {
    if forall i :: 0 <= i < |slots| && slots[i].id != 0 ==> slots[i].when >= NEVER then armed == NEVER else
      && armed <= was && (forall i :: 0 <= i < |slots| && slots[i].id != 0 ==> armed <= slots[i].when)
      && (armed == was || exists i :: 0 <= i < |slots| && slots[i].id != 0 && slots[i].when == armed)
  }

  lemma RearmExactly(d: Driver)
    ensures ArmedFor(d.table.slots, d.armed, Rearm(d).armed)
  {
    assert forall i :: 0 <= i < |d.table.slots| && d.table.slots[i].id != 0 ==>
        Earliest(d.table.slots) <= d.table.slots[i].when || d.table.slots[i].when >= NEVER;
  }

  ghost predicate Enabled(d: Driver, a: Step)
  {
    match a
    case ScheduleAt(when, _) => when <= NEVER && d.issued + 1 < ID_SPAN       // no handle wrap-around
    case CancelHandle(_) => true
    case BeginPass(_) => d.cursor.None?
    case Visit => d.cursor.Some? && d.cursor.value < |d.table.slots|
    case EndPass => d.cursor == Some(|d.table.slots|)
    case StartDriver => true
    case StopDriver => true
  }

  ghost function Next(d: Driver, a: Step): Driver
    requires Enabled(d, a)
  {
    match a
    case ScheduleAt(when, callback) =>
      var (table, out) := SlotStep(d.table, Schedule(when, callback));
      if out == Handle(0) then d else
        Rearm(d.(table := table, issued := d.issued + 1, ledger := L.Add(d.ledger, out.id, when)))
    case CancelHandle(id) =>
      var (table, out) := SlotStep(d.table, Cancel(id));
      if out == Cancelled(false) then d else Rearm(d.(table := table, ledger := L.End(d.ledger, L.Cancelled(id))))
    case BeginPass(now) => d.(cursor := Some(0), now := now)
    case Visit =>
      var i := d.cursor.value;
      var t := d.table.slots[i];
      var d' := d.(cursor := Some(i + 1));
      if !Due(t, d.now) then d' else
        d'.(table := d.table.(slots := d.table.slots[i := FREE]), ledger := L.End(d.ledger, L.Fired(t.id, d.now)))
    case EndPass => Rearm(d.(cursor := None))
    case StartDriver => if d.started then d else Rearm(d).(started := true)
    case StopDriver => if !d.started then d else d.(started := false, armed := NEVER)
  }

  ghost predicate IsRun(d: Driver, run: seq<Step>)
    decreases |run|
  {
    run != [] ==> Enabled(d, run[0]) && IsRun(Next(d, run[0]), run[1..])
  }

  ghost function Exec(d: Driver, run: seq<Step>): Driver
    requires IsRun(d, run)
    decreases |run|
  {
    if run == [] then d else Exec(Next(d, run[0]), run[1..])
  }

  ghost predicate Initial(d: Driver)
  {
    && d.table == SlotTable(seq(MAX_SCHEDULED, _ => FREE), 1) && d.cursor == None
    && !d.started && d.armed == NEVER && d.issued == 0
    && d.ledger == L.Ledger(map[], [])
  }

  // ------------------------------------------------------------------- invariant

  ghost predicate TableInv(d: Driver)
  {
    && |d.table.slots| == MAX_SCHEDULED && UniqueIds(d.table.slots)
    && d.issued < ID_SPAN && d.table.nextId == CounterAfter(d.issued)
    && Booked(Live(d.table.slots), d.ledger, d.issued)
    && (d.cursor.Some? ==> d.cursor.value <= |d.table.slots|)
  }

  ghost predicate ArmInv(d: Driver)
  {
    && d.armed <= NEVER
    && InRange(d.table.slots)
    && (d.started ==> NotLate(d))
  }

  /** The armed deadline is no later than any pending timer. */
  ghost predicate NotLate(d: Driver)
  {
    forall i :: 0 <= i < |d.table.slots| && d.table.slots[i].id != 0 ==> d.armed <= d.table.slots[i].when
  }

  ghost predicate Inv(d: Driver)
  {
    TableInv(d) && ArmInv(d)
  }

  lemma ScheduleShape(d: Driver, when: nat, callback: Option<nat>)
    requires Enabled(d, ScheduleAt(when, callback)) && d.table.nextId == CounterAfter(d.issued)
    ensures var r, i := Next(d, ScheduleAt(when, callback)), Find(d.table.slots, 0);
      if callback.None? || i == |d.table.slots| then r == d else
      var t := Timer(d.issued + 1, when, callback.value);
      && r.table == SlotTable(d.table.slots[i := t], CounterAfter(d.issued + 1)) && r.cursor == d.cursor
      && r.issued == d.issued + 1 && r.ledger == L.Add(d.ledger, t.id, when)
  {
    FreshHandle(d.issued);
    hide NewHandle, CounterAfter, Earliest;
  }

  lemma ScheduleKeeps(d: Driver, when: nat, callback: Option<nat>)
    requires TableInv(d) && Enabled(d, ScheduleAt(when, callback))
    ensures TableInv(Next(d, ScheduleAt(when, callback)))
  {
    hide NewHandle, CounterAfter, Next, L.Inv, SlotStep;
    ScheduleShape(d, when, callback);
    var i := Find(d.table.slots, 0);
    if callback.Some? && i < |d.table.slots| {
      var t := Timer(d.issued + 1, when, callback.value);
      PutLive(d.table.slots, i, t);
      BookAdd(Live(d.table.slots), d.ledger, d.issued, t);
      hide Booked, Live, UniqueIds;
    }
  }

  lemma CancelKeeps(d: Driver, id: nat)
    requires TableInv(d)
    ensures TableInv(Next(d, CancelHandle(id)))
  {
    var i := Find(d.table.slots, id);
    if id != 0 && i < |d.table.slots| {
      FreeLive(d.table.slots, i);
      BookEnd(Live(d.table.slots), d.ledger, d.issued, d.table.slots[i], L.Cancelled(id));
      hide Booked, CounterAfter, Live, UniqueIds;
    }
  }

  lemma VisitKeeps(d: Driver)
    requires TableInv(d) && Enabled(d, Visit)
    ensures TableInv(Next(d, Visit))
  {
    var i := d.cursor.value;
    var t := d.table.slots[i];
    if Due(t, d.now) {
      FreeLive(d.table.slots, i);
      BookEnd(Live(d.table.slots), d.ledger, d.issued, t, L.Fired(t.id, d.now));
      hide Booked, CounterAfter, Live, UniqueIds;
    }
  }

  ghost predicate InRange(slots: seq<Timer>)
  {
    forall i :: 0 <= i < |slots| && slots[i].id != 0 ==> slots[i].when <= NEVER
  }

  lemma RearmNotLate(d: Driver)
    requires d.armed <= NEVER && InRange(d.table.slots)
    ensures Rearm(d).armed <= NEVER && NotLate(Rearm(d))
  {}

  /** After any change of the table, `rearm_locked` is enough. */
  lemma ArmKeeps(d: Driver, a: Step)
    requires ArmInv(d) && Enabled(d, a)
    ensures ArmInv(Next(d, a))
  {
    hide NewHandle, Earliest, Find;
    match a
    case ScheduleAt(when, callback) =>
      RearmNotLate(d.(table := SlotStep(d.table, Schedule(when, callback)).0));
    case CancelHandle(id) =>
      RearmNotLate(d.(table := SlotStep(d.table, Cancel(id)).0));
    case StartDriver => RearmNotLate(d);
    case EndPass => RearmNotLate(d);
    case _ =>
  }

  lemma Keep(d: Driver, a: Step)
    requires Inv(d) && Enabled(d, a)
    ensures Inv(Next(d, a))
  {
    ArmKeeps(d, a);
    match a
    case ScheduleAt(when, callback) => ScheduleKeeps(d, when, callback);
    case CancelHandle(id) => CancelKeeps(d, id);
    case Visit => VisitKeeps(d);
    case _ => hide Booked;
  }

  lemma {:induction false} KeepRun(d: Driver, run: seq<Step>)
    requires Inv(d) && IsRun(d, run)
    ensures Inv(Exec(d, run))
    decreases |run|
  {
    if run != [] {
      Keep(d, run[0]);
      hide Inv, Enabled, Next;
      KeepRun(Next(d, run[0]), run[1..]);
    }
  }

  lemma InitialInv(d: Driver)
    requires Initial(d)
    ensures Inv(d)
  {
    assert Live(d.table.slots) == {};
  }

  /** Over every run, whatever the callbacks schedule and cancel: each handle fires at most once, never
      before its deadline and never after a cancel of it returned true; and the slots hold exactly the
      timers that were scheduled and have neither fired nor been cancelled. */
  lemma HandlesFaithful(d0: Driver, run: seq<Step>)
    requires Initial(d0) && IsRun(d0, run)
    ensures var d := Exec(d0, run);
      && L.Faithful(d.ledger.log)
      && forall id, when :: L.Waits(d.ledger.log, id, when) <==>
         exists t :: t in Live(d.table.slots) && t.id == id && t.when == when
  {
    InitialInv(d0);
    KeepRun(d0, run);
    var d := Exec(d0, run);
    forall id, when
      ensures L.Waits(d.ledger.log, id, when) <==> exists t :: t in Live(d.table.slots) && t.id == id && t.when == when
    {
      assert Booked(Live(d.table.slots), d.ledger, d.issued);
      if L.Waits(d.ledger.log, id, when) {
        assert id in d.ledger.pending && d.ledger.pending[id] == when;
        var t :| t in Live(d.table.slots) && t.id == id;
      }
    }
  }

  /** While the driver is started, even inside a pass, the port is armed no later than the earliest
      pending timer. */
  lemma ArmedInTime(d0: Driver, run: seq<Step>)
    requires Initial(d0) && IsRun(d0, run) && Exec(d0, run).started
    ensures forall t :: t in Live(Exec(d0, run).table.slots) ==> Exec(d0, run).armed <= t.when
  {
    InitialInv(d0);
    KeepRun(d0, run);
  }
}
