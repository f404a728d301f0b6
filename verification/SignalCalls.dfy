/** What one call of `signal_all` or `signal_one` has done by the time it returns, whatever the other
    cores do meanwhile: the first ends every wait on its waitable that had begun before it, the second
    wakes one waiter and no more. */
module SignalCalls {
  import opened Options
  import opened PriorityFifo
  import opened Signals
  import opened SignalInvariant

  /** Thread t is in a wait on w, or on its way into one, and no signal has won it. */
  ghost predicate InWait(s: System, t: nat, w: nat)
  {
    && t < |s.threads| && !s.threads[t].mode.Awake? && !s.threads[t].done
    && w in s.threads[t].mode.ws
  }

  /** Whoever stands undecided on the queue of w is in a wait on w. */
  lemma QueuedInWait(s: System, t: nat, slot: nat, w: nat)
    requires Inv(s) && OnQueue(s, t, slot, w) && !s.threads[t].done
    ensures InWait(s, t, w)
  {
    assert ThreadInv(s, t);
  }

  /** Thread t's wait number v has been won, or is over. */
  ghost predicate Ended(s: System, t: nat, v: nat)
  {
    t < |s.threads| && (s.threads[t].wait > v || (s.threads[t].wait == v && s.threads[t].done))
  }

  lemma WaitStep(s: System, a: Step, r: System, t: nat, w: nat)
    requires Inv(s) && Leads(s, a, r) && InWait(s, t, w)
    ensures (InWait(r, t, w) && r.threads[t].wait == s.threads[t].wait) || Ended(r, t, s.threads[t].wait)
  {
    assert ThreadInv(s, t);
    if a.Ready? {
      assert SignallerInv(s, a.k);
    }
  }

  lemma EndedStays(s: System, a: Step, r: System, t: nat, v: nat)
    requires Inv(s) && Leads(s, a, r) && Ended(s, t, v)
    ensures Ended(r, t, v)
  {
    assert ThreadInv(s, t);
  }

  // -------------------------------------------------------------------- a wait

  /** Thread t has been in wait number v on exactly ws, or is in a later one. */
  ghost predicate WaitsFor(s: System, t: nat, v: nat, ws: seq<nat>, guarded: bool)
  {
    && t < |s.threads| && var th := s.threads[t];
       th.wait > v || (th.wait == v && th.guarded == guarded && if th.mode.Awake? then th.done else th.mode.ws == ws)
  }

  lemma WaitsForStep(s: System, a: Step, r: System, t: nat, v: nat, ws: seq<nat>, guarded: bool)
    requires Inv(s) && Leads(s, a, r) && WaitsFor(s, t, v, ws, guarded)
    ensures WaitsFor(r, t, v, ws, guarded)
  {
    assert ThreadInv(s, t);
    if a.Ready? {
      assert SignallerInv(s, a.k);
    }
  }

  lemma {:induction false} WaitsForRun(s: System, run: seq<Step>, t: nat, v: nat, ws: seq<nat>, guarded: bool)
    requires Inv(s) && IsRun(s, run) && WaitsFor(s, t, v, ws, guarded)
    ensures Inv(Exec(s, run)) && WaitsFor(Exec(s, run), t, v, ws, guarded)
    decreases |run|
  {
    if run != [] {
      NextShaped(s, run[0]);
      Keep(s, run[0], Next(s, run[0]));
      WaitsForStep(s, run[0], Next(s, run[0]), t, v, ws, guarded);
      hide Inv, Enabled, Next, WaitsFor;
      WaitsForRun(Next(s, run[0]), run[1..], t, v, ws, guarded);
    }
  }

  /** Over every run, from the beginning of a wait on ws until it is over: once blocked and while undecided, the
      thread stands on the queue of every one of ws, with the node whose index is that waitable's; and the
      thread gets up again only after somebody has won the wait. */
  lemma WaitStandsOnAll(s0: System, before: seq<Step>, s: System, m: System, run: seq<Step>, t: nat, ws: seq<nat>,
                        guarded: bool)
    requires Initial(s0) && IsRun(s0, before) && s == Exec(s0, before) && Leads(s, Begin(t, ws, guarded), m)
    requires IsRun(m, run) && t < |Exec(m, run).threads| && Exec(m, run).threads[t].wait == s.threads[t].wait + 1
    ensures var th := Exec(m, run).threads[t];
      && (th.mode.Awake? ==> th.done)
      && (th.mode.Blocked? && !th.done ==> |ws| <= |th.nodes| && forall j :: 0 <= j < |ws| ==>
           th.nodes[j] == Some(Node(ws[j], j)))
  {
    InitialInv(s0);
    KeepRun(s0, before);
    Keep(s, Begin(t, ws, guarded), m);
    WaitsForRun(m, run, t, s.threads[t].wait + 1, ws, guarded);
    assert ThreadInv(Exec(m, run), t);
  }

  // ------------------------------------------------------- until the call returns

  predicate Looking(p: Signaller)
  {
    p.Scanning? || p.Picking? || p.Waking?
  }

  /** Signaller k is inside a call on w: a `signal_all`, or a `signal_one` that has woken nobody yet. */
  ghost predicate InCall(s: System, k: nat, w: nat)
  {
    Is(s, k) && var p := s.signallers[k]; !p.Idle? && p.w == w && (p.all || Looking(p))
  }

  ghost predicate Returned(s: System, k: nat)
  {
    Is(s, k) && s.signallers[k].Idle?
  }

  lemma StaysInCall(s: System, a: Step, r: System, k: nat, w: nat)
    requires Leads(s, a, r) && InCall(s, k, w) && (s.signallers[k].all || a != Wake(k))
    ensures (InCall(r, k, w) && r.signallers[k].all == s.signallers[k].all) || a == PickNone(k)
  {
  }

  /** A scan that finds nobody finds no undecided wait on w, nor one about to begin. */
  lemma ScanFindsAll(s: System, k: nat, t: nat, w: nat)
    requires Inv(s) && Enabled(s, PickNone(k)) && s.signallers[k].w == w
    ensures !InWait(s, t, w)
  {
    assert SignallerInv(s, k);
    if t < |s.threads| && !s.threads[t].mode.Awake? && w in s.threads[t].mode.ws {
      assert ThreadInv(s, t) && s.threads[t].mode.Blocked?;
      var ws := s.threads[t].mode.ws;
      var j :| 0 <= j < |ws| && ws[j] == w;
      assert !s.threads[t].done ==> OnQueue(s, t, j, w);
    }
  }

  lemma {:induction false} EndsOnReturn(s: System, run: seq<Step>, k: nat, w: nat, t: nat, v: nat)
    requires Inv(s) && IsRun(s, run) && Returned(Exec(s, run), k)
    requires Ended(s, t, v)
      || (InCall(s, k, w) && (s.signallers[k].all || Wake(k) !in run) && InWait(s, t, w) && s.threads[t].wait == v)
    ensures Ended(Exec(s, run), t, v)
    decreases |run|
  {
    if run != [] {
      var a := run[0];
      NextShaped(s, a);
      var r := Next(s, a);
      Keep(s, a, r);
      if Ended(s, t, v) {
        EndedStays(s, a, r, t, v);
      } else {
        if a == PickNone(k) {
          ScanFindsAll(s, k, t, w);
        }
        StaysInCall(s, a, r, k, w);
        WaitStep(s, a, r, t, w);
      }
      hide Inv, Enabled, Next, Ended, InWait;
      EndsOnReturn(r, run[1..], k, w, t, v);
    }
  }

  /** Over every run: when a `signal_all` has returned, every wait on its waitable that had begun before the
      call and was undecided then has been won, or is over. */
  lemma SignalAllEndsAll(s0: System, before: seq<Step>, s: System, m: System, run: seq<Step>, k: nat, w: nat, t: nat)
    requires Initial(s0) && IsRun(s0, before) && s == Exec(s0, before) && Leads(s, Start(k, w, true), m)
    requires IsRun(m, run) && Returned(Exec(m, run), k) && InWait(s, t, w)
    ensures Ended(Exec(m, run), t, s.threads[t].wait)
  {
    InitialInv(s0);
    KeepRun(s0, before);
    Keep(s, Start(k, w, true), m);
    EndsOnReturn(m, run, k, w, t, s.threads[t].wait);
  }

  // ---------------------------------------------------------------- terminate

  /** Signaller k has set the flag, and is signalling or has signalled all. */
  ghost predicate Flagged(s: System, k: nat)
  {
    s.flag && s.termination in {Signalling(k), Finished}
  }

  lemma {:induction false} FlaggedStays(s: System, run: seq<Step>, k: nat)
    requires Inv(s) && IsRun(s, run) && Flagged(s, k)
    ensures Inv(Exec(s, run)) && Flagged(Exec(s, run), k)
    decreases |run|
  {
    if run != [] {
      NextShaped(s, run[0]);
      Keep(s, run[0], Next(s, run[0]));
      FlaggedStays(Next(s, run[0]), run[1..], k);
    }
  }

  /** Over every run: from `terminate` on no guarded wait begins, and when it has returned every guarded wait
      has been won, or is over. */
  lemma TerminateEndsAll(s0: System, before: seq<Step>, s: System, m: System, run: seq<Step>, k: nat)
    requires Initial(s0) && IsRun(s0, before) && s == Exec(s0, before) && Leads(s, Terminate(k), m) && IsRun(m, run)
    ensures forall t, ws :: !Enabled(Exec(m, run), Begin(t, ws, true))
    ensures Returned(Exec(m, run), k) ==> Exec(m, run).termination.Finished? && Answered(Exec(m, run))
  {
    InitialInv(s0);
    KeepRun(s0, before);
    Keep(s, Terminate(k), m);
    FlaggedStays(m, run, k);
  }

  // --------------------------------------------------------------- signal_one

  /** How many wakes of signaller k the run has. */
  ghost function Wakes(run: seq<Step>, k: nat): nat
  {
    if run == [] then 0 else (if run[0] == Wake(k) then 1 else 0) + Wakes(run[1..], k)
  }

  /** Signaller k makes no other call in the run. */
  ghost predicate OneCall(run: seq<Step>, k: nat)
  {
    forall a :: a in run ==> !((a.Start? || a.Terminate?) && a.k == k)
  }

  /** The wakes a `signal_one` has left to make. */
  ghost function WakesLeft(s: System, k: nat): nat
    requires Is(s, k)
  {
    if !s.crashed && Looking(s.signallers[k]) then 1 else 0
  }

  ghost predicate InSignalOne(s: System, k: nat)
  {
    Is(s, k) && (s.signallers[k].Idle? || !s.signallers[k].all)
  }

  lemma WakesStep(s: System, a: Step, r: System, k: nat)
    requires Leads(s, a, r) && InSignalOne(s, k) && !((a.Start? || a.Terminate?) && a.k == k)
    ensures InSignalOne(r, k) && WakesLeft(r, k) + (if a == Wake(k) then 1 else 0) <= WakesLeft(s, k)
  {
  }

  lemma {:induction false} WakesOnce(s: System, run: seq<Step>, k: nat)
    requires Shaped(s) && IsRun(s, run) && OneCall(run, k) && InSignalOne(s, k)
    ensures Wakes(run, k) <= WakesLeft(s, k)
    decreases |run|
  {
    if run != [] {
      NextShaped(s, run[0]);
      WakesStep(s, run[0], Next(s, run[0]), k);
      hide Enabled, Next, WakesLeft;
      WakesOnce(Next(s, run[0]), run[1..], k);
    }
  }

  lemma {:induction false} NoWake(run: seq<Step>, k: nat)
    requires Wakes(run, k) == 0
    ensures Wake(k) !in run
  {
    if run != [] {
      NoWake(run[1..], k);
    }
  }

  /** Over every run a `signal_one` wakes at most once, and when it has returned it has woken exactly once,
      unless every wait on its waitable that it could have found is won or over. What that one wake does
      is `SignalWindow.WakeExactly`. */
  lemma SignalOneWakesOnce(s0: System, before: seq<Step>, s: System, m: System, run: seq<Step>, k: nat, w: nat, t: nat)
    requires Initial(s0) && IsRun(s0, before) && s == Exec(s0, before) && Leads(s, Start(k, w, false), m)
    requires IsRun(m, run) && OneCall(run, k)
    ensures Wakes(run, k) <= 1
    ensures Returned(Exec(m, run), k) && InWait(s, t, w) && !Ended(Exec(m, run), t, s.threads[t].wait) ==>
      Wakes(run, k) == 1
  {
    InitialInv(s0);
    KeepRun(s0, before);
    Keep(s, Start(k, w, false), m);
    WakesOnce(m, run, k);
    if Returned(Exec(m, run), k) && InWait(s, t, w) && Wakes(run, k) == 0 {
      NoWake(run, k);
      EndsOnReturn(m, run, k, w, t, s.threads[t].wait);
    }
  }
}
