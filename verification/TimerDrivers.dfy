/** One timer contract, three drivers: for histories of schedules, cancels and passes whose
    callbacks do not touch the driver, the slot table (periodic and tickless drivers) and
    the event vector (simulation driver) answer as an abstract set of timers does. */
module TimerDrivers {
  import opened Options
  import opened PriorityFifo
  import opened TimerTables

  type Counter = n: nat | n < ID_SPAN witness 1

  /** A null callback is None. */
  datatype Op = Schedule(when: nat, callback: Option<nat>) | Cancel(id: nat) | Pass(now: nat)

  datatype Out = Handle(id: nat) | Cancelled(ok: bool) | Fired(timers: multiset<Timer>)

  datatype TimerSet = TimerSet(pending: set<Timer>, nextId: Counter)

  datatype SlotTable = SlotTable(slots: seq<Timer>, nextId: Counter)

  datatype EventList = EventList(events: seq<Entry>, nextId: Counter)

  // ---------------------------------------------------------------------- steps

  ghost function SetStep(a: TimerSet, op: Op): (TimerSet, Out)
  {
    match op
    case Schedule(_, None) => (a, Handle(0))
    case Schedule(when, Some(action)) =>
      var (id, next) := NewHandle(a.nextId);
      (TimerSet(a.pending + {Timer(id, when, action)}, next), Handle(id))
    case Cancel(id) =>
      (a.(pending := set t | t in a.pending && t.id != id), Cancelled(exists t :: t in a.pending && t.id == id))
    case Pass(now) =>
      var due := set t | t in a.pending && t.id != 0 && t.when <= now;
      (a.(pending := a.pending - due), Fired(multiset(due)))
  }

  /** `schedule_at`, `cancel` and `on_timer_isr` of the periodic and tickless drivers. */
  function SlotStep(b: SlotTable, op: Op): (SlotTable, Out)
  {
    match op
    case Schedule(_, None) => (b, Handle(0))
    case Schedule(when, Some(action)) =>
      var i := Find(b.slots, 0);
      if i == |b.slots| then (b, Handle(0)) else
        var (id, next) := NewHandle(b.nextId);
        (SlotTable(b.slots[i := Timer(id, when, action)], next), Handle(id))
    case Cancel(id) =>
      var i := Find(b.slots, id);
      if id == 0 || i == |b.slots| then (b, Cancelled(false)) else (b.(slots := b.slots[i := FREE]), Cancelled(true))
    case Pass(now) =>
      var (after, fired) := FireFrom(b.slots, 0, now);
      (b.(slots := after), Fired(multiset(fired)))
  }

  /** The same of the simulation driver. */
  function ListStep(c: EventList, op: Op): (EventList, Out)
  {
    match op
    case Schedule(_, None) => (c, Handle(0))
    case Schedule(when, Some(action)) =>
      var (id, next) := NewHandle(c.nextId);
      (EventList(c.events + [Entry(Timer(id, when, action), false)], next), Handle(id))
    case Cancel(id) =>
      var i := FindEntry(c.events, id);
      if id == 0 || i == |c.events| then (c, Cancelled(false))
      else (c.(events := c.events[i := c.events[i].(cancelled := true)]), Cancelled(true))
    case Pass(now) =>
      (c.(events := Remaining(c.events, now)), Fired(multiset(Collected(c.events, now))))
  }

  ghost function SetRun(a: TimerSet, ops: seq<Op>): seq<Out>
    decreases |ops|
  {
    if ops == [] then [] else [SetStep(a, ops[0]).1] + SetRun(SetStep(a, ops[0]).0, ops[1..])
  }

  function SlotRun(b: SlotTable, ops: seq<Op>): seq<Out>
    decreases |ops|
  {
    if ops == [] then [] else [SlotStep(b, ops[0]).1] + SlotRun(SlotStep(b, ops[0]).0, ops[1..])
  }

  function ListRun(c: EventList, ops: seq<Op>): seq<Out>
    decreases |ops|
  {
    if ops == [] then [] else [ListStep(c, ops[0]).1] + ListRun(ListStep(c, ops[0]).0, ops[1..])
  }

  // ------------------------------------------------------------------ relations

  /** n timers have been scheduled, and the handles have not come round. */
  ghost predicate Issued(a: TimerSet, n: nat)
  {
    && n < ID_SPAN && a.nextId == CounterAfter(n)
    && (forall t :: t in a.pending ==> 1 <= t.id <= n)
    && (forall t, u :: t in a.pending && u in a.pending && t.id == u.id ==> t == u)
  }

  ghost predicate SlotsHold(a: TimerSet, b: SlotTable)
  {
    |b.slots| == MAX_SCHEDULED && UniqueIds(b.slots) && Live(b.slots) == a.pending && b.nextId == a.nextId
  }

  ghost predicate ListHolds(a: TimerSet, c: EventList, n: nat)
  {
    && UniqueEntries(c.events) && Uncancelled(c.events) == a.pending && c.nextId == a.nextId
    && forall e :: e in c.events ==> 1 <= e.timer.id <= n
  }

  function Schedules(op: Op): nat
  {
    if op.Schedule? && op.callback.Some? then 1 else 0
  }

  function Scheduled(ops: seq<Op>): nat
  {
    if ops == [] then 0 else Schedules(ops[0]) + Scheduled(ops[1..])
  }

  lemma FreshHandle(n: nat)
    requires n < ID_SPAN - 1
    ensures NewHandle(CounterAfter(n)) == (n + 1, CounterAfter(n + 1))
  {
    HandleCycle(n, ID_SPAN - 1);
    SmallRemainder(n, ID_SPAN - 1);
  }

  lemma SmallRemainder(a: nat, n: nat)
    requires a < n
    ensures a % n == a
  {}

  lemma SetStepIssues(a: TimerSet, op: Op, n: nat)
    requires Issued(a, n) && n + Schedules(op) < ID_SPAN
    ensures Issued(SetStep(a, op).0, n + Schedules(op))
    ensures Schedules(op) == 1 ==> SetStep(a, op).1 == Handle(n + 1)
  {
    if Schedules(op) == 1 { FreshHandle(n); }
    hide NewHandle, CounterAfter;
  }

  lemma SameTimers(s: seq<Timer>, all: set<Timer>)
    requires Distinct(s) && forall t :: t in s <==> t in all
    ensures multiset(s) == multiset(all)
    decreases |s|
  {
    if s != [] {
      var rest := s[1..];
      assert s == [s[0]] + rest && s[0] in s;
      assert forall t :: t in rest <==> t in all - {s[0]};
      SameTimers(rest, all - {s[0]});
      assert all == (all - {s[0]}) + {s[0]};
    }
  }

  // ---------------------------------------------------------------- slot table

  ghost predicate Fits(a: TimerSet, op: Op)
  {
    Schedules(op) == 1 ==> |a.pending| < MAX_SCHEDULED
  }

  lemma SlotSchedules(a: TimerSet, b: SlotTable, op: Op, n: nat)
    requires Issued(a, n) && n + 1 < ID_SPAN && SlotsHold(a, b) && Schedules(op) == 1
    ensures |a.pending| < MAX_SCHEDULED ==>
      SlotStep(b, op).1 == SetStep(a, op).1 && SlotsHold(SetStep(a, op).0, SlotStep(b, op).0)
    ensures |a.pending| >= MAX_SCHEDULED ==> SlotStep(b, op) == (b, Handle(0))
  {
    FreshHandle(n);
    FreeSlotExactly(b.slots);
    var i := Find(b.slots, 0);
    if i < |b.slots| {
      PutLive(b.slots, i, Timer(n + 1, op.when, op.callback.value));
    }
  }

  lemma SlotCancels(a: TimerSet, b: SlotTable, id: nat, n: nat)
    requires Issued(a, n) && SlotsHold(a, b)
    ensures SlotStep(b, Cancel(id)).1 == SetStep(a, Cancel(id)).1
    ensures SlotsHold(SetStep(a, Cancel(id)).0, SlotStep(b, Cancel(id)).0)
  {
    var i, r := Find(b.slots, id), SetStep(a, Cancel(id)).0;
    if id != 0 && i < |b.slots| {
      FreeLive(b.slots, i);
      assert r.pending == a.pending - {b.slots[i]};
    } else {
      forall t | t in a.pending ensures t.id != id {
        assert t in Live(b.slots);
      }
      assert r.pending == a.pending;
    }
  }

  lemma StaysLive(pending: set<Timer>, slots: seq<Timer>, now: nat)
    requires UniqueIds(slots) && Live(slots) == pending
    ensures Live(FireFrom(slots, 0, now).0) == pending - set t | t in pending && t.id != 0 && t.when <= now
  {
    FireFromExact(slots, 0, now);
    var after := FireFrom(slots, 0, now).0;
    hide FireFrom;
    forall t ensures t in Live(after) <==> t in pending && (t.id == 0 || t.when > now) {
      if t in pending && (t.id == 0 || t.when > now) {
        var j :| 0 <= j < |slots| && slots[j].id != 0 && slots[j] == t;
        assert after[j] == t;
      }
      if t in Live(after) {
        var j :| 0 <= j < |after| && after[j].id != 0 && after[j] == t;
        assert slots[j] == t;
      }
    }
  }

  lemma SlotPasses(a: TimerSet, b: SlotTable, now: nat)
    requires SlotsHold(a, b)
    ensures SlotStep(b, Pass(now)).1 == SetStep(a, Pass(now)).1
    ensures SlotsHold(SetStep(a, Pass(now)).0, SlotStep(b, Pass(now)).0)
  {
    FireFromExact(b.slots, 0, now);
    StaysLive(a.pending, b.slots, now);
    var fired := FireFrom(b.slots, 0, now).1;
    hide FireFrom, UniqueIds, Distinct;
    var due := set t | t in a.pending && t.id != 0 && t.when <= now;
    forall t ensures t in fired <==> t in due {
      if t in due { var j :| 0 <= j < |b.slots| && b.slots[j].id != 0 && b.slots[j] == t; }
    }
    SameTimers(fired, due);
  }

  lemma SlotStepAgrees(a: TimerSet, b: SlotTable, op: Op, n: nat)
    requires Issued(a, n) && n + Schedules(op) < ID_SPAN && SlotsHold(a, b)
    ensures Fits(a, op) ==> SlotStep(b, op).1 == SetStep(a, op).1 && SlotsHold(SetStep(a, op).0, SlotStep(b, op).0)
    ensures !Fits(a, op) ==> SlotStep(b, op).1 != SetStep(a, op).1
  {
    match op
    case Schedule(_, callback) =>
      if callback.Some? {
        SlotSchedules(a, b, op, n);
        SetStepIssues(a, op, n);
      }
    case Cancel(id) => SlotCancels(a, b, id, n);
    case Pass(now) => SlotPasses(a, b, now);
  }

  /** No schedule of the history finds MAX_SCHEDULED timers already pending. */
  ghost predicate NeverOverfull(a: TimerSet, ops: seq<Op>)
    decreases |ops|
  {
    ops != [] ==> Fits(a, ops[0]) && NeverOverfull(SetStep(a, ops[0]).0, ops[1..])
  }

  lemma {:induction false} SlotsAgree(a: TimerSet, b: SlotTable, ops: seq<Op>, n: nat)
    requires Issued(a, n) && n + Scheduled(ops) < ID_SPAN && SlotsHold(a, b)
    ensures SlotRun(b, ops) == SetRun(a, ops) <==> NeverOverfull(a, ops)
    decreases |ops|
  {
    if ops != [] {
      SlotStepAgrees(a, b, ops[0], n);
      SetStepIssues(a, ops[0], n);
      var a', b' := SetStep(a, ops[0]).0, SlotStep(b, ops[0]).0;
      hide SlotStep, SetStep, Issued, SlotsHold, Fits;
      var so, to := SlotRun(b, ops), SetRun(a, ops);
      assert so[1..] == SlotRun(b', ops[1..]) && to[1..] == SetRun(a', ops[1..]);
      if Fits(a, ops[0]) {
        SlotsAgree(a', b', ops[1..], n + Schedules(ops[0]));
        assert so == [so[0]] + so[1..] && to == [to[0]] + to[1..];
      } else {
        assert so[0] != to[0];
      }
    }
  }

  // --------------------------------------------------------------- event vector

  lemma ListSchedules(a: TimerSet, c: EventList, op: Op, n: nat)
    requires Issued(a, n) && n + 1 < ID_SPAN && ListHolds(a, c, n) && Schedules(op) == 1
    ensures ListStep(c, op).1 == SetStep(a, op).1 && ListHolds(SetStep(a, op).0, ListStep(c, op).0, n + 1)
  {
    FreshHandle(n);
    var t := Timer(n + 1, op.when, op.callback.value);
    var r := c.events + [Entry(t, false)];
    assert r[|c.events|].timer == t;
    forall i | 0 <= i < |c.events| ensures c.events[i].timer.id <= n {
      assert c.events[i] in c.events;
    }
    forall u ensures u in Uncancelled(r) <==> u in Uncancelled(c.events) || u == t {
      if u in Uncancelled(c.events) {
        var j :| 0 <= j < |c.events| && !c.events[j].cancelled && c.events[j].timer == u;
        assert r[j].timer == u;
      }
    }
    hide NewHandle, CounterAfter;
  }

  lemma ListCancels(a: TimerSet, c: EventList, id: nat, n: nat)
    requires Issued(a, n) && ListHolds(a, c, n)
    ensures ListStep(c, Cancel(id)).1 == SetStep(a, Cancel(id)).1
    ensures ListHolds(SetStep(a, Cancel(id)).0, ListStep(c, Cancel(id)).0, n)
  {
    var i, r := FindEntry(c.events, id), SetStep(a, Cancel(id)).0;
    if id != 0 && i < |c.events| {
      var t, after := c.events[i].timer, ListStep(c, Cancel(id)).0.events;
      assert t in Uncancelled(c.events);
      assert r.pending == a.pending - {t};
      forall u ensures u in Uncancelled(after) <==> u in Uncancelled(c.events) && u != t {
        if u in Uncancelled(c.events) && u != t {
          var j :| 0 <= j < |c.events| && !c.events[j].cancelled && c.events[j].timer == u;
          assert after[j].timer == u;
        }
      }
      forall e | e in after ensures 1 <= e.timer.id <= n {
        var j :| 0 <= j < |after| && after[j] == e;
        assert c.events[j] in c.events && c.events[j].timer == e.timer;
      }
    } else {
      forall t | t in a.pending ensures t.id != id {
        assert t in Uncancelled(c.events);
      }
      assert r.pending == a.pending;
    }
  }

  lemma RemainsPending(pending: set<Timer>, events: seq<Entry>, now: nat)
    requires Uncancelled(events) == pending
    ensures Uncancelled(Remaining(events, now)) == pending - set t | t in pending && t.id != 0 && t.when <= now
  {
    RemainingExact(events, now);
    forall t ensures t in Uncancelled(Remaining(events, now)) <==> t in pending && (t.id == 0 || t.when > now) {
      if t in pending && (t.id == 0 || t.when > now) {
        var j :| 0 <= j < |events| && !events[j].cancelled && events[j].timer == t;
        assert events[j] in events;
      }
      if e :| e in events && e.timer == t && !e.cancelled && (t.id == 0 || t.when > now) {
        assert t in Uncancelled(events);
      }
    }
  }

  lemma ListPasses(a: TimerSet, c: EventList, now: nat, n: nat)
    requires ListHolds(a, c, n)
    ensures ListStep(c, Pass(now)).1 == SetStep(a, Pass(now)).1
    ensures ListHolds(SetStep(a, Pass(now)).0, ListStep(c, Pass(now)).0, n)
  {
    CollectedExact(c.events, now);
    RemainsPending(a.pending, c.events, now);
    RemainingUnique(c.events, now);
    RemainingMembers(c.events, now);
    hide Remaining, Collected, Uncancelled, UniqueEntries, Distinct;
    SameTimers(Collected(c.events, now), set t | t in a.pending && t.id != 0 && t.when <= now);
  }

  lemma ListStepAgrees(a: TimerSet, c: EventList, op: Op, n: nat)
    requires Issued(a, n) && n + Schedules(op) < ID_SPAN && ListHolds(a, c, n)
    ensures ListStep(c, op).1 == SetStep(a, op).1 && ListHolds(SetStep(a, op).0, ListStep(c, op).0, n + Schedules(op))
  {
    match op
    case Schedule(_, callback) => if callback.Some? { ListSchedules(a, c, op, n); }
    case Cancel(id) => ListCancels(a, c, id, n);
    case Pass(now) => ListPasses(a, c, now, n);
  }

  lemma {:induction false} ListAgrees(a: TimerSet, c: EventList, ops: seq<Op>, n: nat)
    requires Issued(a, n) && n + Scheduled(ops) < ID_SPAN && ListHolds(a, c, n)
    ensures ListRun(c, ops) == SetRun(a, ops)
    decreases |ops|
  {
    if ops != [] {
      ListStepAgrees(a, c, ops[0], n);
      SetStepIssues(a, ops[0], n);
      hide ListStep, SetStep, Issued, ListHolds;
      ListAgrees(SetStep(a, ops[0]).0, ListStep(c, ops[0]).0, ops[1..], n + Schedules(ops[0]));
    }
  }

  // --------------------------------------------------------------------- theorem

  /** From the start, for every history short of handle wrap-around: the simulation driver answers
      every call as the set of timers does, and the slot drivers do exactly when no schedule comes
      while all their slots are taken. */
  lemma DriversAgreeExactly(ops: seq<Op>)
    requires Scheduled(ops) < ID_SPAN
    ensures var none, empty, table := TimerSet({}, 1), EventList([], 1), SlotTable(seq(MAX_SCHEDULED, _ => FREE), 1);
      && ListRun(empty, ops) == SetRun(none, ops)
      && (SlotRun(table, ops) == SetRun(none, ops) <==> NeverOverfull(none, ops))
  {
    var none, empty, table := TimerSet({}, 1), EventList([], 1), SlotTable(seq(MAX_SCHEDULED, _ => FREE), 1);
    assert Issued(none, 0) && SlotsHold(none, table) && ListHolds(none, empty, 0);
    ListAgrees(none, empty, ops, 0);
    SlotsAgree(none, table, ops, 0);
  }
}
