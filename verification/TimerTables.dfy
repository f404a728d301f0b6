/** The data structures of the three time drivers, as values: the 16-slot table shared by
    the periodic and tickless drivers, the event vector of the simulation driver, and the
    32-bit handle counter they have in common. */
module TimerTables {
  import opened PriorityFifo
  import opened Numbers

  const MAX_SCHEDULED: nat := 16
  const ID_SPAN: nat := 0x1_0000_0000

  /** `action` stands for the callback and its argument. */
  datatype Timer = Timer(id: nat, when: nat, action: nat)

  const FREE := Timer(0, 0, 0)

  // -------------------------------------------------------------------- handles

  /** The next handle, skipping the invalid 0, and the counter after it. */
  function NewHandle(nextId: nat): (r: (nat, nat))
    requires nextId < ID_SPAN
    ensures 1 <= r.0 < ID_SPAN && r.1 < ID_SPAN
  {
    var after := (nextId + 1) % ID_SPAN;
    if nextId == 0 then (after, (after + 1) % ID_SPAN) else (nextId, after)
  }

  lemma NewHandleShape(nextId: nat)
    requires nextId < ID_SPAN
    ensures NewHandle(nextId) ==
      if nextId == 0 then (1, 2) else (nextId, if nextId + 1 == ID_SPAN then 0 else nextId + 1)
  {}

  ghost function CounterAfter(n: nat): (c: nat)
    ensures c < ID_SPAN
  {
    if n == 0 then 1 else NewHandle(CounterAfter(n - 1)).1
  }

  /** The handle of the (n+1)-th schedule. */
  ghost function HandleOf(n: nat): nat
  {
    NewHandle(CounterAfter(n)).0
  }

  /** Handles count up from 1 and come round after 2^32 - 1 schedules. */
  lemma {:induction false} HandleCycle(n: nat, round: nat)
    requires round == ID_SPAN - 1
    ensures HandleOf(n) == n % round + 1
    ensures CounterAfter(n) == if n > 0 && n % round == 0 then 0 else n % round + 1
  {
    NewHandleShape(CounterAfter(n));
    if n > 0 {
      HandleCycle(n - 1, round);
      NextRemainder(n - 1, round);
      NewHandleShape(CounterAfter(n - 1));
      hide NewHandle;
    }
  }

  /** Two schedules get the same handle exactly when they are a whole number of rounds apart. */
  lemma HandlesCollideExactly(i: nat, j: nat, round: nat)
    requires round == ID_SPAN - 1
    ensures HandleOf(i) == HandleOf(j) <==> (j - i) % round == 0
  {
    HandleCycle(i, round);
    HandleCycle(j, round);
    SameRemainderExactly(i, j, round);
  }

  // ------------------------------------------------------------- the slot table

  /** The first slot with the given id, or the number of slots; id 0 marks a free slot. */
  function Find(slots: seq<Timer>, id: nat): (i: nat)
    ensures i <= |slots|
    ensures forall j :: 0 <= j < i ==> slots[j].id != id
    ensures i < |slots| ==> slots[i].id == id
  {
    if slots == [] then 0 else if slots[0].id == id then 0 else
      var i := Find(slots[1..], id);
      assert forall j :: 1 <= j < i + 1 ==> slots[j] == slots[1..][j - 1];
      i + 1
  }

  ghost function Live(slots: seq<Timer>): set<Timer>
  {
    set i | 0 <= i < |slots| && slots[i].id != 0 :: slots[i]
  }

  ghost predicate UniqueIds(slots: seq<Timer>)
  {
    forall i, j :: 0 <= i < j < |slots| && slots[i].id != 0 ==> slots[i].id != slots[j].id
  }

  lemma PutLive(slots: seq<Timer>, i: nat, t: Timer)
    requires i < |slots| && slots[i].id == 0 && t.id != 0 && UniqueIds(slots)
    requires forall u :: u in Live(slots) ==> u.id != t.id
    ensures Live(slots[i := t]) == Live(slots) + {t} && UniqueIds(slots[i := t])
  {
    var r := slots[i := t];
    assert r[i] == t;
    forall u | u in Live(slots) ensures u in Live(r) {
      var j :| 0 <= j < |slots| && slots[j].id != 0 && slots[j] == u;
      assert r[j] == u;
    }
    forall j | 0 <= j < |slots| && slots[j].id != 0 ensures slots[j].id != t.id {
      assert slots[j] in Live(slots);
    }
  }

  lemma FreeLive(slots: seq<Timer>, i: nat)
    requires i < |slots| && slots[i].id != 0 && UniqueIds(slots)
    ensures Live(slots[i := FREE]) == Live(slots) - {slots[i]} && UniqueIds(slots[i := FREE])
    ensures slots[i] in Live(slots)
  {
    var r := slots[i := FREE];
    forall u | u in Live(slots) && u != slots[i] ensures u in Live(r) {
      var j :| 0 <= j < |slots| && slots[j].id != 0 && slots[j] == u;
      assert r[j] == u;
    }
    forall u | u in Live(r) ensures u in Live(slots) && u != slots[i] {
      var j :| 0 <= j < |r| && r[j].id != 0 && r[j] == u;
      assert slots[j] == u && j != i;
    }
  }

  /** There is a free slot exactly while fewer timers are pending than there are slots. */
  lemma {:induction false} FreeSlotExactly(slots: seq<Timer>)
    requires UniqueIds(slots)
    ensures |Live(slots)| <= |slots|
    ensures Find(slots, 0) < |slots| <==> |Live(slots)| < |slots|
    decreases |slots|
  {
    if slots != [] {
      var rest := slots[1..];
      assert slots == [slots[0]] + rest;
      FreeSlotExactly(rest);
      LiveCons(slots);
    }
  }

  lemma LiveCons(slots: seq<Timer>)
    requires slots != [] && UniqueIds(slots)
    ensures slots[0].id != 0 ==> Live(slots) == Live(slots[1..]) + {slots[0]} && slots[0] !in Live(slots[1..])
    ensures slots[0].id == 0 ==> Live(slots) == Live(slots[1..])
  {
    var rest := slots[1..];
    forall u | u in Live(rest) ensures u in Live(slots) {
      var j :| 0 <= j < |rest| && rest[j].id != 0 && rest[j] == u;
      assert slots[j + 1] == u;
    }
    forall u | u in Live(slots) && u != slots[0] ensures u in Live(rest) {
      var j :| 0 <= j < |slots| && slots[j].id != 0 && slots[j] == u;
      assert rest[j - 1] == u;
    }
    assert forall j :: 0 <= j < |rest| ==> rest[j] == slots[j + 1];
  }

  predicate Due(t: Timer, now: nat)
  {
    t.id != 0 && t.when <= now
  }

  /** `fire_due_isr` from slot i on, when no callback touches the table. */
  function FireFrom(slots: seq<Timer>, i: nat, now: nat): (seq<Timer>, seq<Timer>)
    requires i <= |slots|
    decreases |slots| - i
  {
    if i == |slots| then (slots, []) else
    if Due(slots[i], now) then
      var (after, fired) := FireFrom(slots[i := FREE], i + 1, now);
      (after, [slots[i]] + fired)
    else FireFrom(slots, i + 1, now)
  }

  lemma {:induction false} FireFromDue(slots: seq<Timer>, i: nat, now: nat)
    requires i <= |slots| && UniqueIds(slots)
    ensures var (after, fired) := FireFrom(slots, i, now);
      && |after| == |slots| && UniqueIds(after) && Distinct(fired)
      && (forall j :: 0 <= j < |slots| ==> after[j] == if i <= j && Due(slots[j], now) then FREE else slots[j])
      && (forall t :: t in fired <==> exists j :: i <= j < |slots| && slots[j] == t && Due(t, now))
    decreases |slots| - i
  {
    if i < |slots| {
      if Due(slots[i], now) {
        var freed := slots[i := FREE];
        FreeLive(slots, i);
        FireFromDue(freed, i + 1, now);
        var fired := FireFrom(freed, i + 1, now).1;
        forall t ensures t in [slots[i]] + fired <==> exists j :: i <= j < |slots| && slots[j] == t && Due(t, now) {
          if j :| i + 1 <= j < |slots| && slots[j] == t && Due(t, now) { assert freed[j] == t; }
          if j :| i + 1 <= j < |freed| && freed[j] == t && Due(t, now) { assert slots[j] == t; }
        }
        assert forall j :: i + 1 <= j < |slots| ==> freed[j] == slots[j] && slots[j].id != slots[i].id;
      } else {
        FireFromDue(slots, i + 1, now);
      }
    }
  }

  /** Each live timer with a deadline of now or earlier fires once and is gone; the others stay where they
      are. */
  lemma FireFromExact(slots: seq<Timer>, i: nat, now: nat)
    requires i <= |slots| && UniqueIds(slots)
    ensures var (after, fired) := FireFrom(slots, i, now);
      && |after| == |slots| && UniqueIds(after) && Distinct(fired)
      && (forall j :: 0 <= j < |slots| ==>
           after[j] == if i <= j && slots[j].id != 0 && slots[j].when <= now then FREE else slots[j])
      && (forall t :: t in fired <==> exists j :: i <= j < |slots| && slots[j] == t && t.id != 0 && t.when <= now)
  {
    FireFromDue(slots, i, now);
    hide FireFrom, Distinct, UniqueIds;
  }

  /** Called in the order of their slots. */
  ghost predicate InSlotOrder(fired: seq<Timer>, slots: seq<Timer>)
  {
    forall a, b, j, k | 0 <= a < b < |fired| && 0 <= j < |slots| && 0 <= k < |slots| ::
      slots[j] == fired[a] && slots[k] == fired[b] ==> j < k
  }

  lemma InSlotOrderCons(slots: seq<Timer>, i: nat, rest: seq<Timer>)
    requires i < |slots| && UniqueIds(slots) && slots[i].id != 0 && InSlotOrder(rest, slots[i := FREE])
    requires forall t :: t in rest ==> t.id != 0 && exists k :: i < k < |slots| && slots[k] == t
    ensures InSlotOrder([slots[i]] + rest, slots)
  {
    var fired, freed := [slots[i]] + rest, slots[i := FREE];
    forall a, b, j, k | 0 <= a < b < |fired| && 0 <= j < |slots| && 0 <= k < |slots|
                        && slots[j] == fired[a] && slots[k] == fired[b]
      ensures j < k
    {
      assert fired[b] == rest[b - 1] && fired[b] in rest;
      assert k > i && freed[k] == rest[b - 1];
      if a > 0 {
        assert fired[a] == rest[a - 1] && fired[a] in rest;
        assert freed[j] == rest[a - 1];
      }
    }
  }

  /** And they fire in slot order. */
  lemma {:induction false} FireFromInOrder(slots: seq<Timer>, i: nat, now: nat)
    requires i <= |slots| && UniqueIds(slots)
    ensures InSlotOrder(FireFrom(slots, i, now).1, slots)
    decreases |slots| - i
  {
    if i < |slots| {
      if Due(slots[i], now) {
        var freed := slots[i := FREE];
        FreeLive(slots, i);
        FireFromInOrder(freed, i + 1, now);
        FireFromExact(freed, i + 1, now);
        var rest := FireFrom(freed, i + 1, now).1;
        hide FireFrom, InSlotOrder;
        forall t | t in rest ensures t.id != 0 && exists k :: i < k < |slots| && slots[k] == t {
          var k :| i + 1 <= k < |freed| && freed[k] == t && t.id != 0;
          assert slots[k] == t;
        }
        InSlotOrderCons(slots, i, rest);
      } else {
        FireFromInOrder(slots, i + 1, now);
      }
    }
  }

  // ----------------------------------------------------- the simulation's vector

  datatype Entry = Entry(timer: Timer, cancelled: bool)

  ghost function Uncancelled(events: seq<Entry>): set<Timer>
  {
    set i | 0 <= i < |events| && !events[i].cancelled :: events[i].timer
  }

  ghost predicate UniqueEntries(events: seq<Entry>)
  {
    && (forall i :: 0 <= i < |events| ==> events[i].timer.id != 0)
    && (forall i, j :: 0 <= i < j < |events| ==> events[i].timer.id != events[j].timer.id)
  }

  /** The entry a cancel of id marks, or the number of entries. */
  function FindEntry(events: seq<Entry>, id: nat): (i: nat)
    ensures i <= |events|
    ensures forall j :: 0 <= j < i ==> events[j].cancelled || events[j].timer.id != id
    ensures i < |events| ==> events[i].timer.id == id && !events[i].cancelled
  {
    if events == [] then 0 else if events[0].timer.id == id && !events[0].cancelled then 0 else
      var i := FindEntry(events[1..], id);
      assert forall j :: 1 <= j < i + 1 ==> events[j] == events[1..][j - 1];
      i + 1
  }

  predicate Fires(e: Entry, now: nat)
  {
    !e.cancelled && Due(e.timer, now)
  }

  /** What a pass takes out, in order, and what it leaves. */
  function Collected(events: seq<Entry>, now: nat): seq<Timer>
  {
    if events == [] then [] else (if Fires(events[0], now) then [events[0].timer] else []) + Collected(events[1..], now)
  }

  function Remaining(events: seq<Entry>, now: nat): seq<Entry>
  {
    if events == [] then [] else
      (if events[0].cancelled || Fires(events[0], now) then [] else [events[0]]) + Remaining(events[1..], now)
  }

  lemma UncancelledCons(events: seq<Entry>)
    requires events != []
    ensures Uncancelled(events) == Uncancelled(events[1..]) + if events[0].cancelled then {} else {events[0].timer}
  {
    var rest := events[1..];
    forall t | t in Uncancelled(rest) ensures t in Uncancelled(events) {
      var j :| 0 <= j < |rest| && !rest[j].cancelled && rest[j].timer == t;
      assert events[j + 1].timer == t;
    }
    forall t | t in Uncancelled(events)
      ensures t in Uncancelled(rest) || (!events[0].cancelled && t == events[0].timer)
    {
      var j :| 0 <= j < |events| && !events[j].cancelled && events[j].timer == t;
      if j > 0 { assert rest[j - 1].timer == t; }
    }
  }

  /** A pass of the simulation driver fires each timer with a deadline of now or earlier once. */
  lemma {:induction false} CollectedExact(events: seq<Entry>, now: nat)
    requires UniqueEntries(events)
    ensures Distinct(Collected(events, now))
    ensures forall t :: t in Collected(events, now) <==> t in Uncancelled(events) && t.id != 0 && t.when <= now
  {
    if events != [] {
      var rest := events[1..];
      assert forall i :: 0 <= i < |rest| ==> rest[i] == events[i + 1];
      assert events[0].timer !in Uncancelled(rest);
      hide Uncancelled;
      CollectedExact(rest, now);
      UncancelledCons(events);
      hide UniqueEntries;
    }
  }

  /** Called in the order of the vector. */
  ghost predicate InVectorOrder(fired: seq<Timer>, events: seq<Entry>)
  {
    forall a, b, j, k | 0 <= a < b < |fired| && 0 <= j < |events| && 0 <= k < |events| ::
      events[j].timer == fired[a] && events[k].timer == fired[b] ==> j < k
  }

  lemma InVectorOrderRest(events: seq<Entry>, fired: seq<Timer>)
    requires events != [] && InVectorOrder(fired, events[1..])
    requires forall t :: t in fired ==> t.id != events[0].timer.id
    ensures InVectorOrder(fired, events)
  {
    forall a, b, j, k | 0 <= a < b < |fired| && 0 <= j < |events| && 0 <= k < |events|
                        && events[j].timer == fired[a] && events[k].timer == fired[b]
      ensures j < k
    {
      assert fired[a] in fired && fired[b] in fired;
      assert events[1..][j - 1].timer == fired[a] && events[1..][k - 1].timer == fired[b];
    }
  }

  lemma InVectorOrderCons(events: seq<Entry>, fired: seq<Timer>)
    requires events != [] && UniqueEntries(events) && InVectorOrder(fired, events)
    requires forall t :: t in fired ==> t.id != events[0].timer.id
    ensures InVectorOrder([events[0].timer] + fired, events)
  {
    var all := [events[0].timer] + fired;
    forall a, b, j, k | 0 <= a < b < |all| && 0 <= j < |events| && 0 <= k < |events|
                        && events[j].timer == all[a] && events[k].timer == all[b]
      ensures j < k
    {
      assert all[b] == fired[b - 1] && fired[b - 1] in fired;
      if a == 0 {
        assert j == 0 && k != 0;
      } else {
        assert all[a] == fired[a - 1];
      }
    }
  }

  /** They fire in the order they were scheduled in. */
  lemma {:induction false} CollectedInOrder(events: seq<Entry>, now: nat)
    requires UniqueEntries(events)
    ensures InVectorOrder(Collected(events, now), events)
  {
    if events != [] {
      var rest := events[1..];
      assert forall i :: 0 <= i < |rest| ==> rest[i] == events[i + 1];
      CollectedInOrder(rest, now);
      CollectedExact(rest, now);
      hide InVectorOrder;
      InVectorOrderRest(events, Collected(rest, now));
      InVectorOrderCons(events, Collected(rest, now));
      assert [] + Collected(rest, now) == Collected(rest, now);
    }
  }

  /** And exactly the others remain, with nothing that is cancelled. */
  lemma {:induction false} RemainingExact(events: seq<Entry>, now: nat)
    ensures forall e :: e in Remaining(events, now) ==> !e.cancelled
    ensures forall t :: t in Uncancelled(Remaining(events, now)) <==>
      exists e :: e in events && e.timer == t && !e.cancelled && (t.id == 0 || t.when > now)
  {
    if events != [] {
      var rest, e := events[1..], events[0];
      RemainingExact(rest, now);
      var kept := Remaining(rest, now);
      assert forall f :: f in events <==> f == e || f in rest;
      if e.cancelled || Fires(e, now) {
        assert Remaining(events, now) == kept;
      } else {
        assert Remaining(events, now) == [e] + kept && ([e] + kept)[1..] == kept;
        UncancelledCons([e] + kept);
      }
      hide Uncancelled;
    }
  }

  lemma {:induction false} RemainingMembers(events: seq<Entry>, now: nat)
    ensures forall e :: e in Remaining(events, now) ==> e in events
  {
    if events != [] { RemainingMembers(events[1..], now); }
  }

  lemma {:induction false} RemainingNotDue(events: seq<Entry>, now: nat)
    ensures forall e :: e in Remaining(events, now) ==> !e.cancelled && !Due(e.timer, now)
  {
    if events != [] { RemainingNotDue(events[1..], now); }
  }

  ghost function EntryIds(events: seq<Entry>): set<nat>
  {
    set i | 0 <= i < |events| :: events[i].timer.id
  }

  /** A pass leaves no entry with the handle of a timer it takes out. */
  lemma TakenOut(events: seq<Entry>, now: nat, t: Timer)
    requires UniqueEntries(events) && t in Collected(events, now)
    ensures t.id !in EntryIds(Remaining(events, now))
  {
    CollectedExact(events, now);
    RemainingMembers(events, now);
    RemainingNotDue(events, now);
    var i :| 0 <= i < |events| && !events[i].cancelled && events[i].timer == t;
    var rest := Remaining(events, now);
    forall k | 0 <= k < |rest| ensures rest[k].timer.id != t.id {
      assert rest[k] in rest;
      var j :| 0 <= j < |events| && events[j] == rest[k];
    }
  }

  lemma {:induction false} RemainingUnique(events: seq<Entry>, now: nat)
    requires UniqueEntries(events)
    ensures UniqueEntries(Remaining(events, now))
  {
    if events != [] {
      var rest, e := events[1..], events[0];
      assert forall i :: 0 <= i < |rest| ==> rest[i] == events[i + 1];
      RemainingUnique(rest, now);
      RemainingMembers(rest, now);
      var kept := Remaining(rest, now);
      forall i | 0 <= i < |kept| ensures kept[i].timer.id != e.timer.id {
        assert kept[i] in rest;
      }
      assert e.cancelled || Fires(e, now) ==> Remaining(events, now) == kept;
    }
  }
}
