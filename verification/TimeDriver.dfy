/** The time drivers as they are written: loops over a slot array or an event vector that is
    updated in place. Each method does what the value-level step of module TimerDrivers does,
    which is where the properties are proved. */
module TimeDriver {
  import opened Options
  import opened TimerTables
  import opened TimerDrivers
  import opened SlotRuns
  import opened SimRuns

  lemma FindIs(slots: seq<Timer>, id: nat, i: nat)
    requires i <= |slots| && (forall j :: 0 <= j < i ==> slots[j].id != id) && (i < |slots| ==> slots[i].id == id)
    ensures Find(slots, id) == i
  {}

  /** The periodic driver, and the part of the tickless driver it shares. */
  class SlotDriver {
    const slots: array<Timer>
    var nextId: Counter

    constructor ()
      ensures fresh(slots) && Table() == SlotTable(seq(MAX_SCHEDULED, _ => FREE), 1)
    {
      slots := new Timer[MAX_SCHEDULED](_ => FREE);
      nextId := 1;
      new;
      assert slots[..] == seq(MAX_SCHEDULED, _ => FREE);
    }

    function Table(): SlotTable
      reads this, slots
    {
      SlotTable(slots[..], nextId)
    }

    method ScheduleAt(when: nat, callback: Option<nat>) returns (handle: nat)
      modifies `nextId, slots
      ensures (Table(), Handle(handle)) == SlotStep(old(Table()), Schedule(when, callback))
    {
      if callback.None? { return 0; }
      var i := 0;
      while i < slots.Length
        invariant i <= slots.Length && Table() == old(Table())
        invariant forall j :: 0 <= j < i ==> slots[j].id != 0
      {
        if slots[i].id == 0 {
          FindIs(slots[..], 0, i);
          var (id, next) := NewHandle(nextId);
          slots[i] := Timer(id, when, callback.value);
          nextId := next;
          return id;
        }
        i := i + 1;
      }
      FindIs(slots[..], 0, i);
      return 0;
    }

    method Cancel(id: nat) returns (ok: bool)
      modifies slots
      ensures (Table(), Cancelled(ok)) == SlotStep(old(Table()), Op.Cancel(id))
    {
      if id == 0 { return false; }
      var i := 0;
      while i < slots.Length
        invariant i <= slots.Length && Table() == old(Table())
        invariant forall j :: 0 <= j < i ==> slots[j].id != id
      {
        if slots[i].id == id {
          FindIs(slots[..], id, i);
          slots[i] := FREE;
          return true;
        }
        i := i + 1;
      }
      FindIs(slots[..], id, i);
      return false;
    }

    /** `fire_due_isr`, with callbacks that leave the table alone; `fired` is in calling order. */
    method FireDue(now: nat) returns (fired: seq<Timer>)
      modifies slots
      ensures (Table(), Fired(multiset(fired))) == SlotStep(old(Table()), Pass(now))
      ensures fired == FireFrom(old(slots[..]), 0, now).1
    {
      fired := [];
      var i := 0;
      ghost var want := FireFrom(slots[..], 0, now);
      while i < slots.Length
        invariant i <= slots.Length && nextId == old(nextId)
        invariant FireFrom(slots[..], i, now).0 == want.0
        invariant fired + FireFrom(slots[..], i, now).1 == want.1
      {
        ghost var before, sofar := slots[..], fired;
        var slot := slots[i];
        if slot.id != 0 && slot.when <= now {
          slots[i] := FREE;
          fired := fired + [slot];
          assert slots[..] == before[i := FREE];
          assert fired + FireFrom(slots[..], i + 1, now).1 == sofar + FireFrom(before, i, now).1;
        }
        i := i + 1;
      }
      assert FireFrom(slots[..], i, now) == (slots[..], []);
      assert fired == want.1 && slots[..] == want.0;
      assert SlotStep(old(Table()), Pass(now)) == (SlotTable(want.0, nextId), Fired(multiset(want.1)));
      assert Table() == SlotTable(want.0, nextId);
    }
  }

  /** The tickless driver over the port's single armed deadline. */
  class TicklessDriver {
    const driver: SlotDriver
    var started: bool
    var armed: nat

    constructor ()
      ensures fresh(driver) && fresh(driver.slots) && !started && armed == NEVER
      ensures driver.Table() == SlotTable(seq(MAX_SCHEDULED, _ => FREE), 1)
    {
      driver := new SlotDriver();
      started, armed := false, NEVER;
    }

    ghost function ArmedAfter(): nat
      reads this, driver, driver.slots
    {
      var e := Earliest(driver.slots[..]);
      if e == NEVER then NEVER else if e < armed then e else armed
    }

    /** `rearm_locked`, and the port's compare-and-swap minimum. */
    method Rearm()
      modifies `armed
      ensures armed == old(ArmedAfter())
      ensures armed <= Earliest(driver.slots[..])
      ensures ArmedFor(driver.slots[..], old(armed), armed)
    {
      var earliest := EarliestOf(driver.slots[..]);
      if earliest == NEVER {
        armed := NEVER;
      } else if earliest < armed {
        armed := earliest;
      }
    }

    method ScheduleAt(when: nat, callback: Option<nat>) returns (handle: nat)
      modifies `armed, driver`nextId, driver.slots
      ensures (driver.Table(), Handle(handle)) == SlotStep(old(driver.Table()), Schedule(when, callback))
      ensures handle == 0 ==> armed == old(armed)
      ensures handle != 0 ==>
        armed <= Earliest(driver.slots[..]) && (armed == old(armed) || armed == Earliest(driver.slots[..]))
      ensures handle != 0 ==> ArmedFor(driver.slots[..], old(armed), armed)
    {
      handle := driver.ScheduleAt(when, callback);
      if handle != 0 { Rearm(); }
    }

    method Cancel(id: nat) returns (ok: bool)
      modifies `armed, driver.slots
      ensures (driver.Table(), Cancelled(ok)) == SlotStep(old(driver.Table()), Op.Cancel(id))
      ensures !ok ==> armed == old(armed)
      ensures ok ==> armed <= Earliest(driver.slots[..]) && (armed == old(armed) || armed == Earliest(driver.slots[..]))
      ensures ok ==> ArmedFor(driver.slots[..], old(armed), armed)
    {
      ok := driver.Cancel(id);
      if ok { Rearm(); }
    }

    method OnTimerIsr(now: nat) returns (fired: seq<Timer>)
      modifies `armed, driver.slots
      ensures (driver.Table(), Fired(multiset(fired))) == SlotStep(old(driver.Table()), Pass(now))
      ensures fired == FireFrom(old(driver.slots[..]), 0, now).1
      ensures armed <= Earliest(driver.slots[..]) && (armed == old(armed) || armed == Earliest(driver.slots[..]))
      ensures ArmedFor(driver.slots[..], old(armed), armed)
    {
      fired := driver.FireDue(now);
      Rearm();
    }
  }

  /** The simulation driver in virtual mode. */
  class SimulationDriver {
    var events: seq<Entry>
    var nextId: Counter
    var virtualNow: nat

    constructor (time: nat)
      ensures events == [] && nextId == 1 && virtualNow == time
    {
      events, nextId, virtualNow := [], 1, time;
    }

    function List(): EventList
      reads this
    {
      EventList(events, nextId)
    }

    method ScheduleAt(when: nat, callback: Option<nat>) returns (handle: nat)
      modifies `events, `nextId
      ensures (List(), Handle(handle)) == ListStep(old(List()), Schedule(when, callback))
    {
      if callback.None? { return 0; }
      var (id, next) := NewHandle(nextId);
      nextId := next;
      events := events + [Entry(Timer(id, when, callback.value), false)];
      return id;
    }

    method Cancel(id: nat) returns (ok: bool)
      modifies `events
      ensures (List(), Cancelled(ok)) == ListStep(old(List()), Op.Cancel(id))
    {
      if id == 0 { return false; }
      var i := 0;
      while i < |events|
        invariant i <= |events| && events == old(events)
        invariant forall j :: 0 <= j < i ==> events[j].cancelled || events[j].timer.id != id
      {
        if events[i].timer.id == id && !events[i].cancelled {
          FindEntryIs(events, id, i);
          events := events[i := events[i].(cancelled := true)];
          return true;
        }
        i := i + 1;
      }
      FindEntryIs(events, id, i);
      return false;
    }

    /** The locked part of `fire_due_callbacks`: mark what is due, then erase what is marked. */
    method Collect(now: nat) returns (due: seq<Timer>)
      modifies `events
      ensures events == Remaining(old(events), now) && due == Collected(old(events), now)
    {
      due := [];
      var i := 0;
      ghost var was := events;
      while i < |events|
        invariant i <= |events| == |was| && nextId == old(nextId)
        invariant due == Collected(was[..i], now)
        invariant forall j :: i <= j < |was| ==> events[j] == was[j]
        invariant forall j :: 0 <= j < i ==> events[j] == was[j].(cancelled := was[j].cancelled || Fires(was[j], now))
      {
        CollectedSnoc(was[..i], was[i], now);
        assert was[..i + 1] == was[..i] + [was[i]];
        var e := events[i];
        if e.timer.id != 0 && !e.cancelled && e.timer.when <= now {
          due := due + [e.timer];
          events := events[i := e.(cancelled := true)];
        }
        i := i + 1;
      }
      assert was[..i] == was;
      var kept := [];
      i := 0;
      while i < |events|
        invariant i <= |events| == |was| && kept == Remaining(was[..i], now)
        invariant forall j :: 0 <= j < |was| ==>
          events[j] == was[j].(cancelled := was[j].cancelled || Fires(was[j], now))
      {
        RemainingSnoc(was[..i], was[i], now);
        assert was[..i + 1] == was[..i] + [was[i]];
        if !events[i].cancelled { kept := kept + [events[i]]; }
        i := i + 1;
      }
      assert was[..i] == was;
      events := kept;
    }

    /** `advance_to`: time is clamped, then what is due by then is taken out. */
    method AdvanceTo(time: nat) returns (due: seq<Timer>)
      modifies `events, `virtualNow
      ensures virtualNow == (if time < old(virtualNow) then old(virtualNow) else time)
      ensures (List(), Fired(multiset(due))) == ListStep(old(List()), Pass(virtualNow))
      ensures due == Collected(old(events), virtualNow)
    {
      virtualNow := if time < virtualNow then virtualNow else time;
      due := Collect(virtualNow);
    }

    /** `advance_by`: 64-bit addition wraps, and then time stands still. */
    method AdvanceBy(delta: nat) returns (due: seq<Timer>)
      requires virtualNow < TIME_SPAN && delta < TIME_SPAN
      modifies `events, `virtualNow
      ensures virtualNow == (if old(virtualNow) + delta < TIME_SPAN then old(virtualNow) + delta else old(virtualNow))
      ensures (List(), Fired(multiset(due))) == ListStep(old(List()), Pass(virtualNow))
      ensures due == Collected(old(events), virtualNow)
    {
      due := AdvanceTo((virtualNow + delta) % TIME_SPAN);
    }
  }

  lemma FindEntryIs(events: seq<Entry>, id: nat, i: nat)
    requires i <= |events| && (forall j :: 0 <= j < i ==> events[j].cancelled || events[j].timer.id != id)
    requires i < |events| ==> events[i].timer.id == id && !events[i].cancelled
    ensures FindEntry(events, id) == i
  {}

  lemma {:induction false} CollectedSnoc(events: seq<Entry>, e: Entry, now: nat)
    ensures Collected(events + [e], now) == Collected(events, now) + if Fires(e, now) then [e.timer] else []
    decreases |events|
  {
    var last := if Fires(e, now) then [e.timer] else [];
    if events == [] {
      assert [] + [e] == [e] && Collected([e], now) == last + Collected([], now);
    } else {
      var first, rest := if Fires(events[0], now) then [events[0].timer] else [], events[1..];
      assert (events + [e])[1..] == rest + [e] && (events + [e])[0] == events[0];
      CollectedSnoc(rest, e, now);
      assert first + (Collected(rest, now) + last) == (first + Collected(rest, now)) + last;
    }
  }

  lemma {:induction false} RemainingSnoc(events: seq<Entry>, e: Entry, now: nat)
    ensures Remaining(events + [e], now) == Remaining(events, now) + if e.cancelled || Fires(e, now) then [] else [e]
    decreases |events|
  {
    var last := if e.cancelled || Fires(e, now) then [] else [e];
    if events == [] {
      assert [] + [e] == [e] && Remaining([e], now) == last + Remaining([], now);
    } else {
      var first, rest := if events[0].cancelled || Fires(events[0], now) then [] else [events[0]], events[1..];
      assert (events + [e])[1..] == rest + [e] && (events + [e])[0] == events[0];
      RemainingSnoc(rest, e, now);
      assert first + (Remaining(rest, now) + last) == (first + Remaining(rest, now)) + last;
    }
  }
}
