/** Between the pick and the wake a signaller holds no lock, only a pointer to a node of the thread's
    pool. Exactly what its wake then acts on, and the runs that go wrong. */
module SignalWindow {
  import opened Options
  import opened PriorityFifo
  import opened Signals
  import opened SignalInvariant

  /** The step frees node `slot` of thread t. */
  ghost predicate Frees(s: System, a: Step, t: nat, slot: nat)
    requires Shaped(s) && Enabled(s, a) && t < |s.threads|
  {
    a.Unlink? && s.signallers[a.k].t == t && LowestUsed(s.threads[t].nodes) == slot
  }

  /** Some step of the run frees it. */
  ghost predicate FreedIn(s: System, run: seq<Step>, t: nat, slot: nat)
    requires Shaped(s) && IsRun(s, run) && t < |s.threads|
    decreases |run|
  {
    && run != []
    && (Frees(s, run[0], t, slot) || (NextShaped(s, run[0]); FreedIn(Next(s, run[0]), run[1..], t, slot)))
  }

  /** Signaller k has just picked: its node stands on its waitable, in a wait that nobody has won. */
  ghost predicate JustPicked(s: System, k: nat)
    requires Shaped(s) && Is(s, k)
  {
    var p := s.signallers[k];
    assert SignallerShaped(s, p);
    p.Waking? && Picked(s, p) && !s.threads[p.t].done
  }

  /** The wait that was picked still stands, with its node. */
  ghost predicate Picked(s: System, p: Signaller)
    requires Shaped(s) && SignallerShaped(s, p) && p.Waking?
  {
    var th := s.threads[p.t];
    th.wait == p.wait && th.mode.Blocked? && th.nodes[p.slot].Some? && th.nodes[p.slot].value.w == p.w
  }

  /** The wait that was picked has lost its node, or is over. */
  ghost predicate Passed(s: System, p: Signaller)
    requires Shaped(s) && SignallerShaped(s, p) && p.Waking?
  {
    var th := s.threads[p.t];
    th.wait > p.wait || (th.wait == p.wait && !th.mode.Entering? && th.nodes[p.slot].None?)
  }

  /** What `pick_best` hands out is such a node. */
  lemma PickPicks(s: System, r: System, k: nat, t: nat, slot: nat)
    requires Inv(s) && Leads(s, Pick(k, t, slot), r)
    ensures JustPicked(r, k)
  {
    assert ThreadInv(s, t) && SignallerInv(s, k);
  }

  lemma StillPicked(s: System, a: Step, r: System, p: Signaller)
    requires Inv(s) && Leads(s, a, r) && SignallerShaped(s, p) && p.Waking? && Picked(s, p)
    ensures SignallerShaped(r, p)
    ensures if Frees(s, a, p.t, p.slot) then Passed(r, p) else Picked(r, p)
  {
    assert ThreadInv(s, p.t);
    if a.Unlink? || a.Ready? {
      assert SignallerInv(s, a.k);
    }
  }

  lemma StaysPassed(s: System, a: Step, r: System, p: Signaller)
    requires Inv(s) && Leads(s, a, r) && SignallerShaped(s, p) && p.Waking? && Passed(s, p)
    ensures SignallerShaped(r, p) && Passed(r, p)
  {
    assert ThreadInv(s, p.t);
  }

  /** Until signaller k wakes, it stays where it is, and the wait it picked stands for exactly as long as
      its node has not been freed. */
  lemma {:induction false} Window(s: System, run: seq<Step>, k: nat)
    requires Inv(s) && Is(s, k) && s.signallers[k].Waking? && IsRun(s, run) && Wake(k) !in run
    requires SignallerShaped(s, s.signallers[k]) && (Picked(s, s.signallers[k]) || Passed(s, s.signallers[k]))
    ensures var p, r := s.signallers[k], Exec(s, run);
      && Inv(r) && Is(r, k) && r.signallers[k] == p && SignallerShaped(r, p)
      && if Picked(s, p) && !FreedIn(s, run, p.t, p.slot) then Picked(r, p) else Passed(r, p)
    decreases |run|
  {
    if run != [] {
      var p, a := s.signallers[k], run[0];
      NextShaped(s, a);
      var r := Next(s, a);
      assert a != Wake(k);
      assert r.signallers[k] == p;
      Keep(s, a, r);
      if Picked(s, p) {
        StillPicked(s, a, r, p);
      } else {
        StaysPassed(s, a, r, p);
      }
      hide Inv, Next, Enabled;
      Window(r, run[1..], k);
    }
  }

  // ---------------------------------------------------------------- the wake

  /** Waking from r to n wins the wait of p's thread and tells it the waitable that p signals. */
  ghost predicate Wins(r: System, n: System, p: Signaller)
    requires Shaped(r) && Shaped(n) && SignallerShaped(r, p) && SignallerShaped(n, p) && p.Waking?
  {
    var th := n.threads[p.t];
    && !n.crashed && !r.threads[p.t].done && th.done && th.mode.Blocked? && th.mode == r.threads[p.t].mode
    && th.winner.Some? && th.winner.value < |th.mode.ws| && th.mode.ws[th.winner.value] == p.w
  }

  /** Waking reports that the wait was lost to another signal, and touches nothing. */
  ghost predicate Loses(r: System, n: System, p: Signaller)
    requires Shaped(r) && SignallerShaped(r, p) && p.Waking?
  {
    !n.crashed && r.threads[p.t].done && n.threads == r.threads && n.locks == r.locks
  }

  /** The wake acts on the wait that was picked. */
  ghost predicate ActsOnPick(r: System, n: System, p: Signaller)
    requires Shaped(r) && Shaped(n) && SignallerShaped(r, p) && SignallerShaped(n, p) && p.Waking?
  {
    n.threads[p.t].wait == p.wait && (Wins(r, n, p) || Loses(r, n, p))
  }

  lemma WakeOutcome(r: System, n: System, k: nat)
    requires Inv(r) && Leads(r, Wake(k), n)
    ensures SignallerShaped(r, r.signallers[k]) && SignallerShaped(n, r.signallers[k])
    ensures var p := r.signallers[k];
      && (Picked(r, p) ==> ActsOnPick(r, n, p))
      && (Passed(r, p) ==> !ActsOnPick(r, n, p))
      && (n.crashed <==> r.threads[p.t].nodes[p.slot].None? || !r.threads[p.t].mode.Blocked?)
      && (Passed(r, p) && !n.crashed ==> n.threads[p.t].wait > p.wait && n.threads[p.t].done)
  {
    assert ThreadInv(r, r.signallers[k].t);
  }

  /** The exact condition. From the pick to the wake anything may happen on the other cores. The wake acts
      on the wait that was picked, winning it or losing it, if and only if no step in between has freed
      the picked node. An assertion fails if and only if the node is free or the thread is not blocked when
      the wake comes; freed and yet no failure means that a later wait is the one it finds or leaves won. */
  lemma WakeExactly(s: System, between: seq<Step>, r: System, n: System, k: nat)
    requires Inv(s) && Is(s, k) && JustPicked(s, k)
    requires IsRun(s, between) && Wake(k) !in between && r == Exec(s, between) && Leads(r, Wake(k), n)
    ensures r.signallers[k] == s.signallers[k]
    ensures SignallerShaped(r, r.signallers[k]) && SignallerShaped(n, r.signallers[k])
    ensures var p := s.signallers[k]; var freed := FreedIn(s, between, p.t, p.slot);
      && (ActsOnPick(r, n, p) <==> !freed)
      && (n.crashed <==> r.threads[p.t].nodes[p.slot].None? || !r.threads[p.t].mode.Blocked?)
      && (freed && !n.crashed ==> n.threads[p.t].wait > p.wait && n.threads[p.t].done)
  {
    Window(s, between, k);
    WakeOutcome(r, n, k);
  }

  // ------------------------------------------------- one signaller at a time

  /** Nobody starts to signal while somebody signals. */
  ghost predicate OneAtATime(s: System, run: seq<Step>)
    requires Shaped(s) && IsRun(s, run)
    decreases |run|
  {
    run != [] ==>
      && (run[0].Start? || run[0].Terminate? ==> forall k :: 0 <= k < |s.signallers| ==> s.signallers[k].Idle?)
      && (NextShaped(s, run[0]); OneAtATime(Next(s, run[0]), run[1..]))
  }

  ghost predicate Alone(s: System)
  {
    forall j, k | 0 <= j < |s.signallers| && 0 <= k < |s.signallers| ::
      !s.signallers[j].Idle? && !s.signallers[k].Idle? ==> j == k
  }

  ghost predicate Sure(s: System)
    requires Shaped(s)
  {
    Alone(s) && forall k :: 0 <= k < |s.signallers| && s.signallers[k].Waking? ==> JustPicked(s, k)
  }

  lemma KeepAlone(s: System, a: Step, r: System)
    requires Leads(s, a, r) && Alone(s)
    requires a.Start? || a.Terminate? ==> forall k :: 0 <= k < |s.signallers| ==> s.signallers[k].Idle?
    ensures Alone(r)
  {
  }

  lemma KeepJustPicked(s: System, a: Step, r: System, k: nat)
    requires Inv(s) && Leads(s, a, r) && Sure(s) && Is(s, k) && r.signallers[k].Waking?
    ensures JustPicked(r, k)
  {
    if r.signallers[k] != s.signallers[k] {
      PickPicks(s, r, k, a.t, a.slot);
    } else {
      assert SignallerShaped(s, s.signallers[k]);
      StillPicked(s, a, r, s.signallers[k]);
    }
  }

  lemma KeepSure(s: System, a: Step, r: System)
    requires Inv(s) && Leads(s, a, r) && Sure(s)
    requires a.Start? || a.Terminate? ==> forall k :: 0 <= k < |s.signallers| ==> s.signallers[k].Idle?
    ensures Sure(r) && !r.crashed
  {
    KeepAlone(s, a, r);
    assert !r.crashed;
    hide Inv, Enabled, Next, JustPicked;
    forall k: nat | k < |r.signallers| && r.signallers[k].Waking? ensures JustPicked(r, k) {
      KeepJustPicked(s, a, r, k);
    }
  }

  lemma {:induction false} SureRun(s: System, run: seq<Step>)
    requires Inv(s) && Sure(s) && !s.crashed && IsRun(s, run) && OneAtATime(s, run)
    ensures Sure(Exec(s, run)) && !Exec(s, run).crashed
    decreases |run|
  {
    if run != [] {
      var r := Next(s, run[0]);
      NextShaped(s, run[0]);
      Keep(s, run[0], r);
      KeepSure(s, run[0], r);
      SureRun(r, run[1..]);
    }
  }

  /** Then, from the start, every wake finds the wait it picked, and no assertion ever fails. */
  lemma OneAtATimeNeverFails(s: System, run: seq<Step>)
    requires Initial(s) && IsRun(s, run) && OneAtATime(s, run)
    ensures Sure(Exec(s, run)) && !Exec(s, run).crashed
  {
    InitialInv(s);
    SureRun(s, run);
  }
}
