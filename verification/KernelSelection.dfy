/** What one reschedule does, exactly; when it reaches the arm marked unreachable;
    and when a waiting ready thread is selected. */
module KernelSelection {
  import opened Config
  import opened Options
  import opened PriorityFifo
  import opened KernelRuns
  import opened KernelPlacement

  ghost function PriorityOf(priority: seq<nat>): nat -> nat
  {
    (t: nat) => if t < |priority| then priority[t] else 0
  }

  ghost predicate InboxAtHome(s: Kernel, c: nat)
    requires Sound(s) && c < |s.cores|
  {
    forall t :: t in s.cores[c].inbox ==> t < |s.state| && s.pinned[t] == c
  }

  lemma DrainOneExact(s: Kernel, c: nat)
    requires Sound(s) && c < |s.cores| && s.cores[c].inbox != [] && InboxAtHome(s, c)
    ensures var r, t, core := DrainOne(s, c), s.cores[c].inbox[0], s.cores[c];
      && t < |s.state| && s.priority[t] < |core.queues| && r.crashed == s.crashed && r.state == s.state[t := Ready]
      && r.cores[c] == core.(inbox := core.inbox[1..], queues := Enqueue(core.queues, PriorityOf(s.priority)(t), t))
      && InboxAtHome(r, c)
  {
    assert s.cores[c].inbox[0] in s.cores[c].inbox;
    assert forall t :: t in s.cores[c].inbox[1..] ==> t in s.cores[c].inbox;
  }

  /** The drain readies exactly the first requests, in the order they were posted. */
  lemma {:induction false} DrainExact(s: Kernel, c: nat, ts: seq<nat>, rest: seq<nat>)
    requires Sound(s) && c < |s.cores| && s.cores[c].inbox == ts + rest && InboxAtHome(s, c)
    ensures forall t :: t in ts ==> PriorityOf(s.priority)(t) < |s.cores[c].queues|
    ensures var r, core := Drain(s, c, |ts|), s.cores[c];
      && r.crashed == s.crashed
      && r.cores[c] == core.(inbox := rest, queues := EnqueueAll(core.queues, ts, PriorityOf(s.priority)))
      && (forall t :: 0 <= t < |s.state| ==> r.state[t] == if t in ts then Ready else s.state[t])
    decreases |ts|
  {
    if ts == [] {
      assert ts + rest == rest;
    } else {
      var r := DrainOne(s, c);
      DrainOneExact(s, c);
      assert (ts + rest)[1..] == ts[1..] + rest;
      hide CoreSound, DrainOne, InboxAtHome;
      DrainExact(r, c, ts[1..], rest);
      assert forall t :: t in ts <==> t == ts[0] || t in ts[1..];
    }
  }

  ghost predicate CurrentAtHome(s: Kernel, c: nat)
    requires Sound(s) && c < |s.cores|
  {
    forall t :: s.cores[c].current == Some(t) ==> t < |s.state| && s.pinned[t] == c
  }

  /** The thread a reschedule rotates. */
  ghost function Back(s: Kernel, c: nat): Option<nat>
    requires Sound(s)
  {
    if RunsAThread(s, c) then s.cores[c].current else None
  }

  ghost function WithRotation(s: Kernel, c: nat): Queues<nat>
    requires Sound(s) && c < |s.cores|
  {
    Rotated(s.cores[c].queues, Back(s, c), PriorityOf(s.priority))
  }

  /** After the drain: a failure if the thread switched from is Ready, else the best of the rest runs. */
  lemma SwitchExact(s: Kernel, c: nat)
    requires Sound(s) && c < |s.cores| && CurrentAtHome(s, c)
    ensures var r, core := Switch(s, c), s.cores[c];
      if core.current.Some? && s.state[core.current.value] in {Ready, Unregistered} then r.crashed
      else
        && r.crashed == s.crashed && r.cores[c].inbox == core.inbox && r.cores[c].started
        && (r.cores[c].current, r.cores[c].queues) == PopBest(WithRotation(s, c))
        && (forall t :: r.cores[c].current == Some(t) ==> t < |r.state| && r.state[t] == Running)
  {
    hide CoreSound, Select, PopBest, MakeReady;
    match s.cores[c].current
    case None => SelectFrom(s, c);
    case Some(t) =>
      if s.state[t].Running? {
        RotatedShape(s, c, t);
        SelectFrom(MakeReady(Leave(s, c), c, t), c);
      } else {
        SelectFrom(Leave(s, c), c);
      }
  }

  lemma SelectFrom(s: Kernel, c: nat)
    requires Sound(s) && c < |s.cores|
    ensures var r := Select(s, c);
      && r.crashed == s.crashed && r.cores[c].inbox == s.cores[c].inbox && r.cores[c].started
      && (r.cores[c].current, r.cores[c].queues) == PopBest(s.cores[c].queues)
      && (forall t :: r.cores[c].current == Some(t) ==> t < |r.state| && r.state[t] == Running)
  {
    SelectShape(s, c);
    hide Select, CoreSound;
  }

  /** A reschedule that does not fail takes the best of the drained and rotated queues. */
  lemma NextExact(s: Kernel, c: nat, k: nat)
    requires Sound(s) && Enabled(s, Reschedule(c, k))
    requires InboxAtHome(s, c) && CurrentAtHome(s, c) && EntryAssertionsHold(s, c)
    requires s.cores[c].current.Some? ==> !s.state[s.cores[c].current.value].Unregistered?
    requires s.cores[c].current.Some? ==> s.cores[c].current.value !in s.cores[c].inbox[..k]
    ensures forall t :: t in s.cores[c].inbox[..k] ==> PriorityOf(s.priority)(t) < |s.cores[c].queues|
    ensures forall t :: 0 <= t < |s.priority| ==> s.priority[t] < |s.cores[c].queues|
    ensures var r, core := Next(s, Reschedule(c, k)), s.cores[c];
      && !r.crashed && r.cores[c].inbox == core.inbox[k..] && r.cores[c].started
      && (r.cores[c].current, r.cores[c].queues)
         == PopBest(Lineup(core.queues, core.inbox[..k], Back(s, c), PriorityOf(s.priority)))
      && (forall t :: r.cores[c].current == Some(t) ==> t < |r.state| && r.state[t] == Running)
  {
    assert s.cores[c].inbox == s.cores[c].inbox[..k] + s.cores[c].inbox[k..];
    DrainExact(s, c, s.cores[c].inbox[..k], s.cores[c].inbox[k..]);
    SwitchExact(Drain(s, c, k), c);
    assert forall t :: 0 <= t < |s.priority| ==> s.priority[t] < |s.cores[c].queues|;
    hide Drain, CoreSound, Switch, EnqueueAll, PopBest;
  }

  lemma RotatedShape(s: Kernel, c: nat, t: nat)
    requires Sound(s) && c < |s.cores| && IsThread(s, t) && s.pinned[t] == c
    ensures var r, core := MakeReady(Leave(s, c), c, t), s.cores[c];
      && s.priority[t] < |core.queues|
      && r.cores == s.cores[c := core.(current := None, queues := Enqueue(core.queues, s.priority[t], t))]
      && r.crashed == s.crashed
  {}

  // ------------------------------------------------- the arm marked unreachable

  /** Past its entry assertions, a reschedule reaches the arm marked unreachable exactly
      when it drains a wake for the thread it is switching away from. */
  lemma ReadyArmExactly(s: Kernel, c: nat, k: nat)
    requires Sound(s) && Enabled(s, Reschedule(c, k)) && InboxAtHome(s, c) && EntryAssertionsHold(s, c)
    requires CurrentAtHome(s, c) && (s.cores[c].current.Some? ==> !s.state[s.cores[c].current.value].Unregistered?)
    ensures Next(s, Reschedule(c, k)).crashed <==>
            s.cores[c].current.Some? && s.cores[c].current.value in s.cores[c].inbox[..k]
  {
    assert s.cores[c].inbox == s.cores[c].inbox[..k] + s.cores[c].inbox[k..];
    DrainExact(s, c, s.cores[c].inbox[..k], s.cores[c].inbox[k..]);
    SwitchExact(Drain(s, c, k), c);
    hide Drain, CoreSound, Switch, EnqueueAll, WithRotation, PopBest;
  }

  lemma EarlyWakeFails(s: Kernel, c: nat, d: nat) returns (run: seq<Step>)
    requires Inv(s) && s.running && RunsAThread(s, c) && d < |s.cores| && s.cores[d].started
    requires d == c || |s.cores[c].inbox| < INBOX_CAP
    ensures IsRun(s, run) && Exec(s, run).crashed
    ensures var t := s.cores[c].current.value;
      exists k :: run == [Block(c), Wake(t, d), Reschedule(c, k)]
  {
    var t := s.cores[c].current.value;
    assert HomeInv(s, c) && s.cores[c].current == Some(t);
    var s1 := Next(s, Block(c));
    var s2 := Next(s1, Wake(t, d));
    var k := |s2.cores[c].inbox|;
    run := [Block(c), Wake(t, d), Reschedule(c, k)];
    if d != c {
      assert s2.cores[c].inbox[k - 1] == t;
      assert InboxAtHome(s2, c);
      EntryAssertionsAfter(s, c, s2, t);
      assert s2.cores[c].inbox[..k] == s2.cores[c].inbox;
      ReadyArmExactly(s2, c, k);
    }
    var s3 := Next(s2, Reschedule(c, k));
    assert s3.crashed;
    hide Next, Enabled, CoreSound;
    assert run[1..] == [Wake(t, d), Reschedule(c, k)] && run[1..][1..] == [Reschedule(c, k)]
      && run[1..][1..][1..] == [];
    assert IsRun(s3, []) && IsRun(s2, run[1..][1..]) && IsRun(s1, run[1..]);
    assert Exec(s1, run[1..]) == Exec(s2, run[1..][1..]) == Exec(s3, []) == s3;
  }

  lemma EntryAssertionsAfter(s: Kernel, c: nat, r: Kernel, t: nat)
    requires Sound(s) && Sound(r) && SameThreads(s, r) && c < |s.cores| && HomeInv(s, c)
    requires s.cores[c].current == r.cores[c].current == Some(t) && r.cores[c].queues == s.cores[c].queues
    requires t < |r.state| && r.state[t] != Ready
    ensures EntryAssertionsHold(r, c)
  {
    assert forall p :: 0 <= p < |s.cores[c].queues| ==> t !in s.cores[c].queues[p];
  }

  /** The wake-after-switch discipline is needed everywhere: whatever thread is running on a
      core, a wake that comes between its blocking and its switch makes the switch fail. */
  lemma EarlyWakeCrashes(s0: Kernel, before: seq<Step>, c: nat, d: nat) returns (run: seq<Step>)
    requires Initial(s0) && IsRun(s0, before) && DisciplinedRun(s0, before)
    requires var s := Exec(s0, before);
      && s.running && !s.crashed && RunsAThread(s, c) && d < |s.cores| && s.cores[d].started
      && (d == c || |s.cores[c].inbox| < INBOX_CAP)
    ensures var s := Exec(s0, before);
      && IsRun(s, run) && Exec(s, run).crashed
      && exists k :: run == [Block(c), Wake(s.cores[c].current.value, d), Reschedule(c, k)]
  {
    InitialInv(s0);
    KeepRun(s0, before);
    run := EarlyWakeFails(Exec(s0, before), c, d);
  }

  // ------------------------------------------------------------------ selection

  /** The ready structure after the drain and the rotation. */
  ghost function Contenders(s: Kernel, c: nat, k: nat): (q: Queues<nat>)
    requires Inv(s) && c < |s.cores| && k <= |s.cores[c].inbox|
    ensures |q| == |s.cores[c].queues|
  {
    DrainedAtHome(s, c, k);
    Lineup(s.cores[c].queues, s.cores[c].inbox[..k], Back(s, c), PriorityOf(s.priority))
  }

  lemma DrainedAtHome(s: Kernel, c: nat, k: nat)
    requires Inv(s) && c < |s.cores| && k <= |s.cores[c].inbox|
    ensures InboxAtHome(s, c)
    ensures forall t :: t in s.cores[c].inbox[..k] ==> PriorityOf(s.priority)(t) < |s.cores[c].queues|
    ensures forall t :: 0 <= t < |s.priority| ==> s.priority[t] < |s.cores[c].queues|
  {
    assert HomeInv(s, c);
    assert s.cores[c].inbox == s.cores[c].inbox[..k] + s.cores[c].inbox[k..];
    DrainExact(s, c, s.cores[c].inbox[..k], s.cores[c].inbox[k..]);
  }

  lemma ContendersExact(s: Kernel, c: nat, k: nat)
    requires Inv(s) && Enabled(s, Reschedule(c, k))
    ensures var d := Drain(s, c, k);
      && HomeInv(d, c) && WithRotation(d, c) == Contenders(s, c, k) && d.cores[c].inbox == s.cores[c].inbox[k..]
      && d.cores[c].current == s.cores[c].current
    ensures s.cores[c].current.Some? ==> Drain(s, c, k).state[s.cores[c].current.value] !in {Ready, Unregistered}
  {
    assert HomeInv(s, c);
    var drained, rest := s.cores[c].inbox[..k], s.cores[c].inbox[k..];
    assert s.cores[c].inbox == drained + rest;
    DrainedAtHome(s, c, k);
    DrainExact(s, c, drained, rest);
    DrainKeeps(s, c, k);
    var d := Drain(s, c, k);
    if s.cores[c].current.Some? {
      var t := s.cores[c].current.value;
      assert s.cores[c].current == Some(t) && t !in s.cores[c].inbox && t !in drained;
      assert d.state[t] == s.state[t];
    }
    hide Drain, CoreSound, EnqueueAll, QueueInv, InboxInv, ThreadInv;
  }

  lemma ContendersRows(s: Kernel, c: nat, k: nat)
    requires Inv(s) && Enabled(s, Reschedule(c, k))
    ensures forall p, t :: 0 <= p < |s.cores[c].queues| && t in Contenders(s, c, k)[p] ==>
              t < |s.state| && s.pinned[t] == c && s.priority[t] == p
  {
    ContendersExact(s, c, k);
    var d := Drain(s, c, k);
    DrainKeeps(s, c, k) by { assert HomeInv(s, c); }
    assert d.cores[c].current.Some? ==> d.cores[c].current == Some(d.cores[c].current.value);
    hide Drain, CoreSound, Contenders, InboxInv, ThreadInv;
  }

  lemma SelectsBest(s: Kernel, c: nat, k: nat)
    requires Inv(s) && Enabled(s, Reschedule(c, k))
    ensures var r := Next(s, Reschedule(c, k));
      && (r.cores[c].current, r.cores[c].queues) == PopBest(Contenders(s, c, k))
      && r.cores[c].inbox == s.cores[c].inbox[k..]
      && (r.cores[c].current == None ==> Empty(r.cores[c].queues))
      && (forall t :: r.cores[c].current == Some(t) ==>
            && t < |r.state| && r.state[t] == Running && s.priority[t] == Best(Contenders(s, c, k))
            && forall p :: 0 <= p < |r.cores[c].queues| && r.cores[c].queues[p] != [] ==> s.priority[t] <= p)
  {
    EntryAssertions(s, c) by { assert HomeInv(s, c); }
    ContendersExact(s, c, k);
    ContendersRows(s, c, k);
    SwitchExact(Drain(s, c, k), c);
    var r, q := Next(s, Reschedule(c, k)), Contenders(s, c, k);
    hide Drain, CoreSound, Switch, Contenders, WithRotation, HomeInv;
    if r.cores[c].current.Some? {
      assert q[Best(q)][0] in q[Best(q)];
    }
  }

  /** A reschedule runs the oldest of the most urgent contenders, and idles only if there is none;
      so nothing left ready is more urgent than what runs. */
  lemma RescheduleSelects(s0: Kernel, run: seq<Step>, c: nat, k: nat)
    requires Initial(s0) && IsRun(s0, run) && DisciplinedRun(s0, run) && Enabled(Exec(s0, run), Reschedule(c, k))
    ensures Inv(Exec(s0, run))
    ensures var s := Exec(s0, run);
      var r, contenders := Next(s, Reschedule(c, k)), Contenders(s, c, k);
      && (r.cores[c].current, r.cores[c].queues) == PopBest(contenders)
      && (r.cores[c].current == None ==> Empty(r.cores[c].queues))
      && (forall t :: r.cores[c].current == Some(t) ==>
            && t < |r.state| && r.state[t] == Running && s.priority[t] == Best(contenders)
            && forall p :: 0 <= p < |r.cores[c].queues| && r.cores[c].queues[p] != [] ==> s.priority[t] <= p)
  {
    InitialInv(s0);
    KeepRun(s0, run);
    SelectsBest(Exec(s0, run), c, k);
  }

  // ------------------------------------------------------------------- rotation

  /** No thread of core c more urgent than p is ready or running. */
  ghost predicate Calm(s: Kernel, c: nat, p: nat)
    requires Sound(s)
  {
    forall t :: 0 <= t < |s.state| && s.pinned[t] == c && s.priority[t] < p ==> s.state[t] !in {Ready, Running}
  }

  ghost predicate CalmRun(s: Kernel, run: seq<Step>, c: nat, p: nat)
    requires Sound(s) && IsRun(s, run)
    decreases |run|
  {
    Calm(s, c, p) && (run != [] ==> CalmRun(Next(s, run[0]), run[1..], c, p))
  }

  ghost predicate IsTurn(a: Step, c: nat)
  {
    a.Reschedule? && a.c == c
  }

  /** How many reschedules of core c the run has. */
  ghost function Turns(run: seq<Step>, c: nat): nat
  {
    if run == [] then 0 else (if IsTurn(run[0], c) then 1 else 0) + Turns(run[1..], c)
  }

  ghost predicate Holds(s: Kernel, c: nat, p: nat, i: nat, t: nat)
  {
    && c < |s.cores| && s.cores[c].started
    && p < |s.cores[c].queues| && i < |s.cores[c].queues[p]| && s.cores[c].queues[p][i] == t
  }

  /** Between reschedules a core's queues only grow at the back. */
  lemma QueuesGrow(s: Kernel, a: Step, c: nat, p: nat, i: nat, t: nat)
    requires Sound(s) && Enabled(s, a) && !IsTurn(a, c) && Holds(s, c, p, i, t)
    ensures Holds(Next(s, a), c, p, i, t)
  {
    hide Drain, Select;
    match a
    case Reschedule(d, k) => OtherCore(s, d, k, c);
    case StartCore(d) => SelectShape(s, d);
    case _ =>
  }

  lemma OtherCore(s: Kernel, d: nat, k: nat, c: nat)
    requires Sound(s) && Enabled(s, Reschedule(d, k)) && c < |s.cores| && c != d
    ensures Next(s, Reschedule(d, k)).cores[c] == s.cores[c]
  {
    DrainElsewhere(s, d, k, c);
    SwitchElsewhere(Drain(s, d, k), d, c);
    hide Sound, Drain, Switch;
  }

  lemma {:induction false} DrainElsewhere(s: Kernel, d: nat, k: nat, c: nat)
    requires Sound(s) && d < |s.cores| && k <= |s.cores[d].inbox| && c < |s.cores| && c != d
    ensures Drain(s, d, k).cores[c] == s.cores[c]
    decreases k
  {
    if k > 0 {
      assert DrainOne(s, d).cores[c] == s.cores[c];
      hide CoreSound, DrainOne;
      DrainElsewhere(DrainOne(s, d), d, k - 1, c);
    }
  }

  lemma SwitchElsewhere(s: Kernel, d: nat, c: nat)
    requires Sound(s) && d < |s.cores| && c < |s.cores| && c != d
    ensures Switch(s, d).cores[c] == s.cores[c]
  {
    assert s.cores[d].current.Some? ==> IsThread(s, s.cores[d].current.value);
    hide CoreSound, Select, MakeReady;
    match s.cores[d].current
    case None => SelectElsewhere(s, d, c);
    case Some(t) =>
      if s.state[t].Running? {
        ReadyElsewhere(Leave(s, d), d, t, c);
        SelectElsewhere(MakeReady(Leave(s, d), d, t), d, c);
      } else {
        SelectElsewhere(Leave(s, d), d, c);
      }
  }

  lemma SelectElsewhere(s: Kernel, d: nat, c: nat)
    requires Sound(s) && d < |s.cores| && c < |s.cores| && c != d
    ensures Select(s, d).cores[c] == s.cores[c]
  {
    SelectShape(s, d);
    hide Select, CoreSound;
  }

  lemma ReadyElsewhere(s: Kernel, d: nat, t: nat, c: nat)
    requires Sound(s) && d < |s.cores| && IsThread(s, t) && c < |s.cores| && c != d
    ensures MakeReady(s, d, t).cores[c] == s.cores[c]
  {}

  /** A reschedule with nothing more urgent takes exactly the head of the row. */
  lemma OneTurn(s: Kernel, c: nat, k: nat, p: nat, i: nat, t: nat)
    requires Inv(s) && Enabled(s, Reschedule(c, k)) && Holds(s, c, p, i, t) && Calm(Next(s, Reschedule(c, k)), c, p)
    ensures var r := Next(s, Reschedule(c, k));
      if i == 0 then r.cores[c].current == Some(t) else Holds(r, c, p, i - 1, t)
  {
    SelectsBest(s, c, k);
    RescheduleKeeps(s, c, k);
    RowGrows(s, c, k, p);
    var r, q := Next(s, Reschedule(c, k)), Contenders(s, c, k);
    assert r.cores[c].started by { assert HomeInv(r, c); }
    assert q[p][i] == t && q[p] != [];
    assert CurrentInv(r, c) by { assert HomeInv(r, c); }
    hide Next, Contenders, Inv, CoreSound;
    assert Best(q) == p;
  }

  lemma RowGrows(s: Kernel, c: nat, k: nat, p: nat)
    requires Inv(s) && c < |s.cores| && k <= |s.cores[c].inbox| && p < |s.cores[c].queues|
    ensures s.cores[c].queues[p] <= Contenders(s, c, k)[p]
  {
    DrainedAtHome(s, c, k);
    EnqueueAllRows(s.cores[c].queues, s.cores[c].inbox[..k], PriorityOf(s.priority), p);
  }

  lemma Advance(s: Kernel, a: Step, c: nat, p: nat, i: nat, t: nat)
    requires Inv(s) && Enabled(s, a) && Holds(s, c, p, i, t) && Calm(Next(s, a), c, p)
    ensures !IsTurn(a, c) ==> Holds(Next(s, a), c, p, i, t)
    ensures IsTurn(a, c) && i > 0 ==> Holds(Next(s, a), c, p, i - 1, t)
    ensures IsTurn(a, c) && i == 0 ==> Current(Next(s, a), c, t)
  {
    if IsTurn(a, c) { OneTurn(s, c, a.drained, p, i, t); } else { QueuesGrow(s, a, c, p, i, t); }
  }

  lemma {:induction false} LastTurn(run: seq<Step>, c: nat)
    requires run != [] && IsTurn(run[|run| - 1], c)
    ensures Turns(run, c) >= 1
    decreases |run|
  {
    if |run| > 1 { LastTurn(run[1..], c); }
  }

  /** Still queued, as many places further on as there were reschedules; or, when the
      last of i+1 reschedules has just happened, running. */
  ghost predicate Served(r: Kernel, run: seq<Step>, c: nat, p: nat, i: nat, t: nat)
  {
    && (Turns(run, c) <= i ==> Holds(r, c, p, i - Turns(run, c), t))
    && (Turns(run, c) == i + 1 && run != [] && IsTurn(run[|run| - 1], c) ==> Current(r, c, t))
  }

  ghost predicate Current(r: Kernel, c: nat, t: nat)
  {
    c < |r.cores| && r.cores[c].current == Some(t)
  }

  lemma ServedOn(r: Kernel, a: Step, run: seq<Step>, c: nat, p: nat, i: nat, t: nat)
    requires !IsTurn(a, c) && Served(r, run, c, p, i, t)
    ensures Served(r, [a] + run, c, p, i, t)
  {
    assert ([a] + run)[1..] == run;
  }

  lemma ServedTurn(r: Kernel, a: Step, run: seq<Step>, c: nat, p: nat, i: nat, t: nat)
    requires IsTurn(a, c)
    requires if i > 0 then Served(r, run, c, p, i - 1, t) else run == [] ==> Current(r, c, t)
    ensures Served(r, [a] + run, c, p, i, t)
  {
    assert ([a] + run)[1..] == run;
    if run != [] && IsTurn(run[|run| - 1], c) { LastTurn(run, c); }
  }

  lemma {:induction false} SelectedFrom(s: Kernel, run: seq<Step>, c: nat, p: nat, i: nat, t: nat)
    requires Inv(s) && IsRun(s, run) && DisciplinedRun(s, run) && !Exec(s, run).crashed
    requires CalmRun(s, run, c, p) && Holds(s, c, p, i, t)
    ensures Served(Exec(s, run), run, c, p, i, t)
    decreases |run|
  {
    assert Sound(s);
    assert run == [] ==> Served(s, run, c, p, i, t);
    if run != [] { NoCrashOnTheWay(s, run); }
    hide Sound, Inv, Next, Enabled, Calm, Holds, Disciplined, IsTurn, Served, Turns, Current;
    if run != [] {
      var r, a := Next(s, run[0]), run[0];
      Keep(s, a);
      assert Calm(r, c, p);
      Advance(s, a, c, p, i, t);
      var end := Exec(r, run[1..]);
      assert run == [a] + run[1..];
      if !IsTurn(a, c) {
        SelectedFrom(r, run[1..], c, p, i, t);
        ServedOn(end, a, run[1..], c, p, i, t);
      } else {
        if i > 0 { SelectedFrom(r, run[1..], c, p, i - 1, t); }
        ServedTurn(end, a, run[1..], c, p, i, t);
      }
    }
  }

  lemma NoCrashBefore(s: Kernel, run: seq<Step>)
    requires Sound(s) && IsRun(s, run) && !Exec(s, run).crashed
    ensures !s.crashed
  {
    assert run != [] ==> Enabled(s, run[0]);
  }

  /** While nothing more urgent is ready, a thread with i threads ahead of it in its queue is
      selected at exactly the (i+1)-th reschedule of its core, whatever else the kernel does. */
  lemma SelectedExactly(s0: Kernel, before: seq<Step>, s: Kernel, run: seq<Step>, c: nat, p: nat, i: nat, t: nat)
    requires Initial(s0) && IsRun(s0, before) && DisciplinedRun(s0, before) && s == Exec(s0, before)
    requires IsRun(s, run) && DisciplinedRun(s, run) && !Exec(s, run).crashed
    requires CalmRun(s, run, c, p) && Holds(s, c, p, i, t)
    ensures Served(Exec(s, run), run, c, p, i, t)
  {
    NoCrashBefore(s, run);
    InitialInv(s0);
    hide *;
    KeepRun(s0, before);
    SelectedFrom(s, run, c, p, i, t);
  }
}
