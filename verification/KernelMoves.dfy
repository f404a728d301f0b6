/** Where each step of a kernel run puts the thread it is about, in terms of the places of module
    KernelPlacement, and that nothing else moves; and that a thread that has ended stays ended. */
module KernelMoves {
  import opened Config
  import opened Options
  import opened PriorityFifo
  import opened KernelRuns
  import opened KernelPlacement
  import S = KernelSelection

  // ------------------------------------------------------------ ready and wake

  /** No thread but t changes its state or its place, and nobody gets on or off a processor. */
  ghost predicate OnlyMoves(s: Kernel, r: Kernel, t: nat)
    requires Sound(s) && Sound(r) && SameThreads(s, r)
  {
    && (forall u :: 0 <= u < |s.state| && u != t ==> r.state[u] == s.state[u])
    && (forall u: nat, place :: u < |s.state| && u != t ==> (At(r, u, place) <==> At(s, u, place)))
    && (forall c :: 0 <= c < |s.cores| ==>
         r.cores[c].current == s.cores[c].current && r.cores[c].started == s.cores[c].started)
    && r.running == s.running
  }

  /** Thread t is Ready and the last of its own row on its own core. */
  ghost predicate LastReady(s: Kernel, t: nat)
    requires Sound(s) && IsThread(s, t)
  {
    var c, p := s.pinned[t], s.priority[t];
    s.state[t].Ready? && s.cores[c].queues[p] != [] && At(s, t, InQueue(c, p, |s.cores[c].queues[p]| - 1))
  }

  /** A request for t is the last in the inbox of its own core. */
  ghost predicate LastPosted(s: Kernel, t: nat)
    requires Sound(s) && IsThread(s, t)
  {
    var c := s.pinned[t];
    s.cores[c].inbox != [] && At(s, t, InInbox(c, |s.cores[c].inbox| - 1))
  }

  ghost predicate IsReadying(a: Step)
  {
    a.Register? || a.Wake?
  }

  lemma ReadiedPlace(s: Kernel, t: nat)
    requires Sound(s) && IsThread(s, t)
    ensures LastReady(MakeReady(s, s.pinned[t], t), t) && OnlyMoves(s, MakeReady(s, s.pinned[t], t), t)
  {
  }

  lemma PostedPlace(s: Kernel, t: nat)
    requires Sound(s) && IsThread(s, t) && !Post(s, t).crashed
    ensures LastPosted(Post(s, t), t) && OnlyMoves(s, Post(s, t), t)
  {
  }

  lemma OnlyMovesTwice(s: Kernel, m: Kernel, r: Kernel, t: nat)
    requires Sound(s) && Sound(m) && Sound(r) && SameThreads(s, m) && SameThreads(m, r)
    requires OnlyMoves(s, m, t) && OnlyMoves(m, r, t)
    ensures OnlyMoves(s, r, t)
  {
    hide At, CoreSound;
  }

  /** `Kernel::set_thread_ready` after the first change of t alone. */
  lemma ReadyFromPlace(s: Kernel, m: Kernel, t: nat, from: nat)
    requires Sound(s) && Sound(m) && SameThreads(s, m) && IsThread(s, t) && OnlyMoves(s, m, t)
    requires !ReadyFrom(m, t, from).crashed
    ensures var r := ReadyFrom(m, t, from);
      && OnlyMoves(s, r, t)
      && (if !s.running || from == s.pinned[t] then LastReady(r, t) else LastPosted(r, t))
  {
    var r := ReadyFrom(m, t, from);
    if !s.running || from == s.pinned[t] {
      ReadiedPlace(m, t);
      assert r == MakeReady(m, s.pinned[t], t);
    } else {
      assert r == Post(m, t);
      PostedPlace(m, t);
    }
    hide OnlyMoves, LastReady, LastPosted, CoreSound, ReadyFrom;
    OnlyMovesTwice(s, m, r, t);
  }

  lemma ReadyingPlace(s: Kernel, a: Step)
    requires Sound(s) && Enabled(s, a) && IsReadying(a) && !Next(s, a).crashed
    ensures var r := Next(s, a);
      && OnlyMoves(s, r, a.t)
      && (if !s.running || a.from == s.pinned[a.t] then LastReady(r, a.t) else LastPosted(r, a.t))
  {
    var m := if a.Register? then SetState(s, a.t, Ready) else s.(waiting := s.waiting[a.t := false]);
    assert OnlyMoves(s, m, a.t);
    hide OnlyMoves, LastReady, LastPosted, CoreSound, ReadyFrom;
    ReadyFromPlace(s, m, a.t, a.from);
  }

  /** In every state of every disciplined run: a thread that is registered or woken is Ready and last in its
      own row exactly when the cores are not running yet or the call is made on its own core, and otherwise
      is last in the inbox of its core; and nothing else moves. */
  lemma ReadyExactly(s0: Kernel, run: seq<Step>, s: Kernel, a: Step, r: Kernel)
    requires Initial(s0) && IsRun(s0, run) && DisciplinedRun(s0, run) && s == Exec(s0, run)
    requires Enabled(s, a) && Disciplined(s, a) && IsReadying(a) && r == Next(s, a) && !r.crashed
    ensures var local := !s.running || a.from == s.pinned[a.t];
      (LastReady(r, a.t) <==> local) && (LastPosted(r, a.t) <==> !local)
    ensures OnlyMoves(s, r, a.t)
  {
    assert Sound(s) && IsThread(s, a.t);
    hide Next, Enabled, Disciplined, Inv, OnlyMoves, LastReady, LastPosted, CoreSound, Initial;
    InitialInv(s0);
    KeepRun(s0, run);
    Keep(s, a);
    ReadyingPlace(s, a);
    NotBoth(r, a.t);
  }

  lemma NotBoth(s: Kernel, t: nat)
    requires Inv(s) && IsThread(s, t)
    ensures !(LastReady(s, t) && LastPosted(s, t))
  {
    var c, p := s.pinned[t], s.priority[t];
    forall i: nat, j: nat | At(s, t, InQueue(c, p, i)) ensures !At(s, t, InInbox(c, j)) {
      if At(s, t, InInbox(c, j)) {
        OnePlace(s, t, InQueue(c, p, i), InInbox(c, j));
      }
    }
    hide Inv, At, CoreSound;
  }

  // -------------------------------------------------------------- block and end

  lemma StopMoves(s: Kernel, a: Step)
    requires Sound(s) && Enabled(s, a) && (a.Block? || a.Terminate?)
    ensures var r, t := Next(s, a), s.cores[a.c].current.value;
      && OnlyMoves(s, r, t) && !r.crashed && r.state[t] == (if a.Block? then Blocked else Terminated)
      && (a.Block? ==> At(r, t, Waiting))
  {
  }

  lemma StopPlace(r: Kernel, t: nat, place: Place)
    requires Inv(r) && IsThread(r, t) && At(r, t, place)
    ensures !r.state[t].Terminated? && (At(r, t, Waiting) ==> place == Waiting)
  {
    PlacedAtHome(r, t, place);
    if At(r, t, Waiting) {
      OnePlace(r, t, place, Waiting);
    }
  }

  /** A thread that blocks is waiting, one that terminates is nowhere; it stays on the processor until the
      next reschedule, and nothing else moves. */
  lemma StopExactly(s0: Kernel, run: seq<Step>, s: Kernel, a: Step, r: Kernel)
    requires Initial(s0) && IsRun(s0, run) && DisciplinedRun(s0, run) && s == Exec(s0, run)
    requires Enabled(s, a) && (a.Block? || a.Terminate?) && r == Next(s, a)
    ensures var t := s.cores[a.c].current.value;
      && OnlyMoves(s, r, t) && !r.crashed
      && (forall place :: At(r, t, place) <==> a.Block? && place == Waiting)
      && r.state[t] == if a.Block? then Blocked else Terminated
  {
    InitialInv(s0);
    KeepRun(s0, run);
    StopMoves(s, a);
    Keep(s, a);
    var t := s.cores[a.c].current.value;
    hide Next, Enabled, Inv, OnlyMoves, CoreSound, At;
    forall place | At(r, t, place) ensures a.Block? && place == Waiting {
      StopPlace(r, t, place);
    }
  }

  // ------------------------------------------------------------ ended for good

  ghost predicate Ended(s: Kernel, t: nat)
  {
    t < |s.state| && s.state[t].Terminated?
  }

  ghost predicate OffProcessors(s: Kernel, t: nat)
  {
    forall c :: 0 <= c < |s.cores| ==> s.cores[c].current != Some(t)
  }

  /** A drain readies only threads that have not ended. */
  lemma DrainEnded(s: Kernel, c: nat, k: nat, t: nat)
    requires Inv(s) && c < |s.cores| && k <= |s.cores[c].inbox| && Ended(s, t)
    ensures Ended(Drain(s, c, k), t) && HomeInv(Drain(s, c, k), c)
  {
    assert HomeInv(s, c);
    DrainKeeps(s, c, k);
    S.DrainedAtHome(s, c, k);
    var ts := s.cores[c].inbox[..k];
    assert s.cores[c].inbox == ts + s.cores[c].inbox[k..];
    S.DrainExact(s, c, ts, s.cores[c].inbox[k..]);
    assert forall u :: u in ts ==> u in s.cores[c].inbox;
    hide Drain, CoreSound;
  }

  lemma SelectEnded(s: Kernel, c: nat, t: nat)
    requires Sound(s) && c < |s.cores| && QueueInv(s, c) && Ended(s, t)
    ensures Ended(Select(s, c), t) && Select(s, c).cores[c].current != Some(t)
  {
    SelectShape(s, c);
    var queues := s.cores[c].queues;
    if PopBest(queues).0.Some? {
      assert queues[Best(queues)][0] in queues[Best(queues)];
    }
    hide Select, CoreSound;
  }

  lemma SwitchEnded(s: Kernel, c: nat, t: nat)
    requires Sound(s) && c < |s.cores| && HomeInv(s, c) && Ended(s, t)
    ensures Ended(Switch(s, c), t) && Switch(s, c).cores[c].current != Some(t)
  {
    match s.cores[c].current
    case None => SelectEnded(s, c, t);
    case Some(u) =>
      LeaveKeeps(s, c, u);
      hide CoreSound, Select;
      if s.state[u].Running? {
        ReadyKeeps(Leave(s, c), c, u);
        SelectEnded(MakeReady(Leave(s, c), c, u), c, t);
      } else {
        SelectEnded(Leave(s, c), c, t);
      }
  }

  /** Whoever is on a processor after the step was there before, and was not switched away from. */
  ghost predicate NotPutBack(s: Kernel, a: Step, r: Kernel, t: nat)
    requires |r.cores| == |s.cores|
  {
    forall c :: 0 <= c < |r.cores| && r.cores[c].current == Some(t) ==>
      s.cores[c].current == Some(t) && !S.IsTurn(a, c)
  }

  lemma RescheduleEnded(s: Kernel, c: nat, k: nat, t: nat)
    requires Inv(s) && Enabled(s, Reschedule(c, k)) && Ended(s, t)
    ensures var r := Next(s, Reschedule(c, k)); Ended(r, t) && NotPutBack(s, Reschedule(c, k), r, t)
  {
    EntryAssertions(s, c) by { assert HomeInv(s, c); }
    assert Next(s, Reschedule(c, k)) == Switch(Drain(s, c, k), c);
    hide Inv, HomeInv, CoreSound, Switch, Drain, Next, EntryAssertionsHold;
    DrainEnded(s, c, k, t);
    SwitchEnded(Drain(s, c, k), c, t);
    forall d: nat | d < |s.cores| && d != c ensures Next(s, Reschedule(c, k)).cores[d] == s.cores[d] {
      S.OtherCore(s, c, k, d);
    }
  }

  lemma StartEnded(s: Kernel, c: nat, t: nat)
    requires Inv(s) && Enabled(s, StartCore(c)) && Ended(s, t)
    ensures var r := Next(s, StartCore(c)); Ended(r, t) && NotPutBack(s, StartCore(c), r, t)
  {
    assert HomeInv(s, c);
    SelectEnded(s, c, t);
    SelectShape(s, c);
    hide Select, CoreSound;
  }

  /** No step brings back a thread that has ended, and a reschedule of its core takes it off the processor. */
  lemma EndedStep(s: Kernel, a: Step, t: nat)
    requires Inv(s) && Enabled(s, a) && !Next(s, a).crashed && Ended(s, t)
    ensures Ended(Next(s, a), t) && NotPutBack(s, a, Next(s, a), t)
  {
    match a
    case Reschedule(c, k) => RescheduleEnded(s, c, k, t);
    case StartCore(c) => StartEnded(s, c, t);
    case _ => hide CoreSound, HomeInv;
  }

  lemma {:induction false} EndedRun(s: Kernel, run: seq<Step>, t: nat)
    requires Inv(s) && IsRun(s, run) && DisciplinedRun(s, run) && !Exec(s, run).crashed && Ended(s, t)
    ensures Inv(Exec(s, run)) && Ended(Exec(s, run), t)
    ensures forall c :: 0 <= c < |s.cores| && Exec(s, run).cores[c].current == Some(t) ==>
      s.cores[c].current == Some(t) && S.Turns(run, c) == 0
    decreases |run|
  {
    if run != [] {
      NoCrashOnTheWay(s, run);
      Keep(s, run[0]);
      EndedStep(s, run[0], t);
      hide Inv, Next, Enabled, Ended, CoreSound;
      EndedRun(Next(s, run[0]), run[1..], t);
    }
  }

  lemma NothingForIt(r: Kernel, t: nat)
    requires Inv(r) && Ended(r, t)
    ensures forall place :: !At(r, t, place)
    ensures forall from :: !Enabled(r, Wake(t, from)) && !Enabled(r, Register(t, from))
  {
    assert HomeInv(r, r.pinned[t]) && ThreadInv(r, t);
    forall place | At(r, t, place) ensures false {
      PlacedAtHome(r, t, place);
    }
  }

  /** After the thread on core c has terminated, in every later state of every disciplined run: it is in no
      place, nobody can wake or register it, and from the next reschedule of its core on it is on no
      processor. */
  lemma TerminatedForGood(s0: Kernel, before: seq<Step>, s: Kernel, c: nat, m: Kernel, run: seq<Step>, r: Kernel)
    requires Initial(s0) && IsRun(s0, before) && DisciplinedRun(s0, before) && s == Exec(s0, before)
    requires Enabled(s, Terminate(c)) && m == Next(s, Terminate(c))
    requires IsRun(m, run) && DisciplinedRun(m, run) && r == Exec(m, run) && !r.crashed
    ensures var t := s.cores[c].current.value;
      && r.state[t].Terminated? && (forall place :: !At(r, t, place))
      && (forall from :: !Enabled(r, Wake(t, from)) && !Enabled(r, Register(t, from)))
      && (S.Turns(run, c) > 0 ==> OffProcessors(r, t))
  {
    InitialInv(s0);
    KeepRun(s0, before);
    StopMoves(s, Terminate(c));
    Keep(s, Terminate(c));
    var t := s.cores[c].current.value;
    assert forall d :: 0 <= d < |m.cores| && m.cores[d].current == Some(t) ==> d == c by {
      forall d | 0 <= d < |m.cores| && m.cores[d].current == Some(t) ensures d == c {
        assert HomeInv(m, d) && HomeInv(m, c) && m.cores[c].current == Some(t);
      }
    }
    hide Inv, Next, Enabled, CoreSound, OnlyMoves;
    EndedRun(m, run, t);
    NothingForIt(r, t);
  }
}
