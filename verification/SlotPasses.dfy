/** What the calls of the slot drivers have done when they return: a pass has fired every timer that was due
    when it began and was not cancelled in between, whatever the callbacks schedule and cancel; a schedule
    and a cancel have taken effect exactly when they say so; and the port is disarmed when nothing waits. */
module SlotPasses {
  import opened Options
  import opened TimerTables
  import opened TimerDrivers
  import opened TimerRuns
  import opened SlotRuns
  import L = TimerLedger

  // ------------------------------------------------------- schedule and cancel

  /** A schedule adds its timer under a new handle exactly when it has a callback and a slot is free, and
      else changes nothing. */
  lemma ScheduleExactly(d: Driver, when: nat, callback: Option<nat>)
    requires Inv(d) && Enabled(d, ScheduleAt(when, callback))
    ensures var r := Next(d, ScheduleAt(when, callback));
      if callback.None? || |Live(d.table.slots)| == MAX_SCHEDULED then r == d else
        && Live(r.table.slots) == Live(d.table.slots) + {Timer(d.issued + 1, when, callback.value)}
        && r.ledger.log == d.ledger.log + [L.Scheduled(d.issued + 1, when)] && r.issued == d.issued + 1
  {
    FreeSlotExactly(d.table.slots);
    ScheduleShape(d, when, callback);
    hide NewHandle, CounterAfter, Next, SlotStep;
    var i := Find(d.table.slots, 0);
    if callback.Some? && i < |d.table.slots| {
      PutLive(d.table.slots, i, Timer(d.issued + 1, when, callback.value));
    }
  }

  /** A cancel takes out the timer with the handle exactly when there is one, and else changes nothing. */
  lemma CancelExactly(d: Driver, id: nat)
    requires Inv(d)
    ensures var r := Next(d, CancelHandle(id));
      if forall t :: t in Live(d.table.slots) ==> t.id != id then r == d else
        && Live(r.table.slots) == (set t | t in Live(d.table.slots) && t.id != id)
        && r.ledger.log == d.ledger.log + [L.Cancelled(id)]
  {
    var slots := d.table.slots;
    var i := Find(slots, id);
    if id != 0 && i < |slots| {
      FreeLive(slots, i);
      assert slots[i] in Live(slots);
    } else {
      assert forall t :: t in Live(slots) ==> t.id != id;
    }
  }

  // -------------------------------------------------------------------- a pass

  /** Entry k of the log says that t fired in the pass at `now`, or that a cancel in the run took it out. */
  ghost predicate Settles(log: seq<L.Event>, k: nat, t: Timer, now: nat, run: seq<Step>)
  {
    && k < |log|
    && (log[k] == L.Fired(t.id, now) || (log[k] == L.Cancelled(t.id) && CancelHandle(t.id) in run))
  }

  /** Since entry n, t has been settled. */
  ghost predicate SettledSince(log: seq<L.Event>, n: nat, t: Timer, now: nat, run: seq<Step>)
  {
    exists k: nat :: n <= k && Settles(log, k, t, now, run)
  }

  /** t is in slot j, which the pass has not come to. */
  ghost predicate Ahead(d: Driver, t: Timer, j: nat, now: nat)
  {
    d.now == now && d.cursor.Some? && d.cursor.value <= j < |d.table.slots| && d.table.slots[j] == t
  }

  lemma LogGrows(d: Driver, a: Step)
    requires Enabled(d, a)
    ensures d.ledger.log <= Next(d, a).ledger.log && |Next(d, a).ledger.log| <= |d.ledger.log| + 1
  {
  }

  /** A step of a pass leaves t ahead, or fires it, or is a cancel that takes it out. */
  lemma PassStep(d: Driver, a: Step, t: Timer, j: nat, now: nat, all: seq<Step>)
    requires Inv(d) && Enabled(d, a) && !a.EndPass? && a in all && Ahead(d, t, j, now) && t.id != 0 && t.when <= now
    ensures var r := Next(d, a); Ahead(r, t, j, now) || Settles(r.ledger.log, |d.ledger.log|, t, now, all)
  {
  }

  /** t is still ahead, or has been settled since entry n. */
  ghost predicate Looked(d: Driver, n: nat, t: Timer, j: nat, now: nat, all: seq<Step>)
  {
    n <= |d.ledger.log| && (Ahead(d, t, j, now) || SettledSince(d.ledger.log, n, t, now, all))
  }

  lemma LookedStep(d: Driver, a: Step, n: nat, t: Timer, j: nat, now: nat, all: seq<Step>)
    requires Inv(d) && Enabled(d, a) && !a.EndPass? && a in all && t.id != 0 && t.when <= now
    requires Looked(d, n, t, j, now, all)
    ensures Looked(Next(d, a), n, t, j, now, all)
  {
    LogGrows(d, a);
    var r := Next(d, a);
    if SettledSince(d.ledger.log, n, t, now, all) {
      var k: nat :| n <= k && Settles(d.ledger.log, k, t, now, all);
      assert Settles(r.ledger.log, k, t, now, all);
    } else {
      PassStep(d, a, t, j, now, all);
    }
  }

  /** A handle whose life has ended is in no slot. */
  lemma SettledIsGone(d: Driver, n: nat, t: Timer, now: nat, all: seq<Step>)
    requires Inv(d) && SettledSince(d.ledger.log, n, t, now, all)
    ensures forall u :: u in Live(d.table.slots) ==> u.id != t.id
  {
    var k: nat :| n <= k && Settles(d.ledger.log, k, t, now, all);
    assert L.Ends(d.ledger.log, k, t.id);
    forall u | u in Live(d.table.slots) ensures u.id != t.id {
      assert Booked(Live(d.table.slots), d.ledger, d.issued);
      assert L.Waits(d.ledger.log, u.id, u.when);
    }
  }

  /** Wherever the log has u fire since entry n, t has been settled before. */
  ghost predicate Precedes(log: seq<L.Event>, n: nat, t: Timer, u: Timer, now: nat, all: seq<Step>)
  {
    forall x: nat :: n <= x < |log| && log[x].Fired? && log[x].id == u.id ==> SettledBefore(log, n, x, t, now, all)
  }

  ghost predicate SettledBefore(log: seq<L.Event>, n: nat, x: nat, t: Timer, now: nat, all: seq<Step>)
  {
    exists k: nat :: n <= k < x && Settles(log, k, t, now, all)
  }

  /** Only a visit of its own slot fires u, and the pass has been at the slots before. */
  lemma FiresAfter(d: Driver, a: Step, n: nat, t: Timer, j: nat, u: Timer, k: nat, now: nat, all: seq<Step>)
    requires Inv(d) && Enabled(d, a) && u.id != 0 && j < k
    requires Looked(d, n, t, j, now, all) && Looked(d, n, u, k, now, all)
    requires var log, x := Next(d, a).ledger.log, |d.ledger.log|;
      x < |log| && log[x].Fired? && log[x].id == u.id
    ensures SettledSince(d.ledger.log, n, t, now, all)
  {
    var i := d.cursor.value;
    assert a.Visit? && d.table.slots[i].id == u.id;
    assert d.table.slots[i] in Live(d.table.slots);
    if SettledSince(d.ledger.log, n, u, now, all) {
      SettledIsGone(d, n, u, now, all);
    }
    assert i == k;
  }

  lemma PrecedesStep(d: Driver, a: Step, n: nat, t: Timer, j: nat, u: Timer, k: nat, now: nat, all: seq<Step>)
    requires Inv(d) && Enabled(d, a) && u.id != 0 && j < k && Precedes(d.ledger.log, n, t, u, now, all)
    requires Looked(d, n, t, j, now, all) && Looked(d, n, u, k, now, all)
    ensures Precedes(Next(d, a).ledger.log, n, t, u, now, all)
  {
    LogGrows(d, a);
    var was, log := d.ledger.log, Next(d, a).ledger.log;
    forall x: nat | n <= x < |log| && log[x].Fired? && log[x].id == u.id
      ensures SettledBefore(log, n, x, t, now, all)
    {
      if x < |was| {
        assert SettledBefore(was, n, x, t, now, all);
        var y: nat :| n <= y < x && Settles(was, y, t, now, all);
        assert Settles(log, y, t, now, all);
      } else {
        FiresAfter(d, a, n, t, j, u, k, now, all);
        var y: nat :| n <= y && Settles(was, y, t, now, all);
        assert Settles(log, y, t, now, all);
      }
    }
  }

  lemma {:induction false} LookedRun(d: Driver, run: seq<Step>, n: nat, t: Timer, j: nat, now: nat, all: seq<Step>)
    requires Inv(d) && IsRun(d, run) && EndPass !in run && (forall a :: a in run ==> a in all)
    requires t.id != 0 && t.when <= now && Looked(d, n, t, j, now, all)
    ensures Inv(Exec(d, run)) && Looked(Exec(d, run), n, t, j, now, all)
    decreases |run|
  {
    if run != [] {
      Keep(d, run[0]);
      LookedStep(d, run[0], n, t, j, now, all);
      hide Inv, Enabled, Next, Looked;
      LookedRun(Next(d, run[0]), run[1..], n, t, j, now, all);
    }
  }

  lemma {:induction false} PrecedesRun(d: Driver, run: seq<Step>, n: nat, t: Timer, j: nat, u: Timer, k: nat,
                                       now: nat, all: seq<Step>)
    requires Inv(d) && IsRun(d, run) && EndPass !in run && (forall a :: a in run ==> a in all) && j < k
    requires t.id != 0 && t.when <= now && Looked(d, n, t, j, now, all)
    requires u.id != 0 && u.when <= now && Looked(d, n, u, k, now, all)
    requires Precedes(d.ledger.log, n, t, u, now, all)
    ensures Precedes(Exec(d, run).ledger.log, n, t, u, now, all)
    decreases |run|
  {
    if run != [] {
      Keep(d, run[0]);
      LookedStep(d, run[0], n, t, j, now, all);
      LookedStep(d, run[0], n, u, k, now, all);
      PrecedesStep(d, run[0], n, t, j, u, k, now, all);
      hide Inv, Enabled, Next, Looked, Precedes;
      PrecedesRun(Next(d, run[0]), run[1..], n, t, j, u, k, now, all);
    }
  }

  /** From d on, a pass at `now` that ends in e. */
  ghost predicate Passes(d: Driver, now: nat, pass: seq<Step>, e: Driver)
  {
    && Enabled(d, BeginPass(now)) && IsRun(Next(d, BeginPass(now)), pass) && EndPass !in pass
    && Enabled(Exec(Next(d, BeginPass(now)), pass), EndPass)
    && e == Next(Exec(Next(d, BeginPass(now)), pass), EndPass)
  }

  /** In every run, from the beginning of a pass at `now` to its end, with any schedules and cancels in
      between: no timer that waited at the beginning for `now` or earlier waits at the end, and each one
      has fired in this pass, at `now`, or was cancelled during it. */
  lemma PassFiresAllDue(d0: Driver, before: seq<Step>, d: Driver, now: nat, pass: seq<Step>, e: Driver, t: Timer)
    requires Initial(d0) && IsRun(d0, before) && d == Exec(d0, before) && Passes(d, now, pass, e)
    requires t in Live(d.table.slots) && t.when <= now
    ensures forall u :: u in Live(e.table.slots) ==> u.id != t.id
    ensures SettledSince(e.ledger.log, |d.ledger.log|, t, now, pass)
  {
    InitialInv(d0);
    KeepRun(d0, before);
    var b, n := Next(d, BeginPass(now)), |d.ledger.log|;
    var j: nat :| j < |d.table.slots| && d.table.slots[j].id != 0 && d.table.slots[j] == t;
    assert t.id != 0;
    PassBegins(d, now, j, pass);
    hide Inv, Enabled, Next, Live, Looked;
    LookedRun(b, pass, n, t, j, now, pass);
    PassEnds(Exec(b, pass), n, t, j, now, pass);
    SettledIsGone(e, n, t, now, pass);
  }

  lemma PassBegins(d: Driver, now: nat, j: nat, pass: seq<Step>)
    requires Inv(d) && Enabled(d, BeginPass(now)) && j < |d.table.slots|
    ensures var b := Next(d, BeginPass(now)); Inv(b) && Looked(b, |d.ledger.log|, d.table.slots[j], j, now, pass)
  {
    Keep(d, BeginPass(now));
    hide Inv;
  }

  lemma PassEnds(d: Driver, n: nat, t: Timer, j: nat, now: nat, pass: seq<Step>)
    requires Inv(d) && Enabled(d, EndPass) && Looked(d, n, t, j, now, pass)
    ensures Inv(Next(d, EndPass)) && SettledSince(Next(d, EndPass).ledger.log, n, t, now, pass)
  {
    Keep(d, EndPass);
    hide Inv, SettledSince;
  }

  /** And they fire in slot order: one that stands in an earlier slot has fired, or has been cancelled, before. */
  lemma PassFiresInSlotOrder(d0: Driver, before: seq<Step>, d: Driver, now: nat, pass: seq<Step>, e: Driver,
                             j: nat, k: nat)
    requires Initial(d0) && IsRun(d0, before) && d == Exec(d0, before) && Passes(d, now, pass, e)
    requires j < k < |d.table.slots|
    requires var slots := d.table.slots;
      slots[j].id != 0 && slots[j].when <= now && slots[k].id != 0 && slots[k].when <= now
    ensures Precedes(e.ledger.log, |d.ledger.log|, d.table.slots[j], d.table.slots[k], now, pass)
  {
    InitialInv(d0);
    KeepRun(d0, before);
    var b, n := Next(d, BeginPass(now)), |d.ledger.log|;
    PassBegins(d, now, j, pass);
    PassBegins(d, now, k, pass);
    assert Precedes(b.ledger.log, n, d.table.slots[j], d.table.slots[k], now, pass);
    assert e.ledger == Exec(b, pass).ledger;
    hide Inv, Enabled, Next, Looked, Precedes;
    PrecedesRun(b, pass, n, d.table.slots[j], j, d.table.slots[k], k, now, pass);
  }

  // ------------------------------------------------------------------ the port

  /** The call has changed the table, or has set the driver going. */
  ghost predicate Rearms(d: Driver, a: Step)
    requires Enabled(d, a)
  {
    match a
    case ScheduleAt(_, _) => |Next(d, a).ledger.log| > |d.ledger.log|
    case CancelHandle(_) => |Next(d, a).ledger.log| > |d.ledger.log|
    case EndPass => true
    case StartDriver => !d.started
    case _ => false
  }

  /** The port is re-armed by exactly the calls that must, is disarmed by stopping the driver, and is left alone
      by everything else; the driver is started from a start to the next stop. */
  lemma ArmsExactly(d: Driver, a: Step)
    requires Inv(d) && Enabled(d, a)
    ensures var r := Next(d, a);
      && (Rearms(d, a) ==> ArmedFor(r.table.slots, d.armed, r.armed))
      && (a.StopDriver? && d.started ==> r.armed == NEVER)
      && (!Rearms(d, a) && !(a.StopDriver? && d.started) ==> r.armed == d.armed)
      && r.started == (a.StartDriver? || (d.started && !a.StopDriver?))
  {
    hide NewHandle, Find, Live, UniqueIds, Booked, CounterAfter;
    match a
    case ScheduleAt(when, callback) => RearmExactly(d.(table := SlotStep(d.table, Schedule(when, callback)).0));
    case CancelHandle(id) => RearmExactly(d.(table := SlotStep(d.table, Cancel(id)).0));
    case EndPass => RearmExactly(d);
    case StartDriver => RearmExactly(d);
    case _ =>
  }
}
