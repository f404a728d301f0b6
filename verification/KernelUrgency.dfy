/** What `set_thread_ready` answers, and what the answers are worth: whenever a thread that is ready on a core
    is more urgent than the one on its processor, a reschedule of that core has been asked for. Idle counts as
    a thread of the lowest priority, so a ready thread of that priority can be left behind it unasked. */
module KernelUrgency {
  import opened Config
  import opened Options
  import opened PriorityFifo
  import opened KernelRuns
  import opened KernelPlacement
  import A = KernelAssertions
  import S = KernelSelection

  /** The priority of what is on the processor; the idle thread has the last one. */
  ghost function Urgency(s: Kernel, c: nat): int
    requires Sound(s) && c < |s.cores|
  {
    match s.cores[c].current
    case Some(t) => s.priority[t]
    case None => |s.cores[c].queues| - 1
  }

  /** `set_thread_ready`, called in step a, answers that core c should reschedule. */
  ghost predicate Asks(s: Kernel, a: Step, c: nat)
    requires Sound(s) && c < |s.cores| && Enabled(s, a)
  {
    && (a.Register? || a.Wake?) && s.running && a.from == s.pinned[a.t] == c
    && s.priority[a.t] < Urgency(s, c)
  }

  /** The step is one in which core c selects. */
  ghost predicate Selects(a: Step, c: nat)
  {
    (a.Reschedule? || a.StartCore?) && a.c == c
  }

  /** At the end of the run, a reschedule of core c has been asked for since it last selected. */
  ghost predicate Asked(s: Kernel, run: seq<Step>, c: nat, already: bool)
    requires Sound(s) && IsRun(s, run) && c < |s.cores|
    decreases |run|
  {
    if run == [] then already else
      Asked(Next(s, run[0]), run[1..], c, !Selects(run[0], c) && (already || Asks(s, run[0], c)))
  }

  /** Nothing ready on core c is more urgent than what is on its processor. */
  ghost predicate Ordered(s: Kernel, c: nat)
    requires Sound(s) && c < |s.cores|
  {
    forall p :: 0 <= p < |s.cores[c].queues| && s.cores[c].queues[p] != [] ==> Urgency(s, c) <= p
  }

  ghost predicate NotEarly(s: Kernel)
  {
    forall c :: 0 <= c < |s.cores| && s.cores[c].started ==> s.running
  }

  ghost predicate SameRows(s: Kernel, r: Kernel)
  {
    |r.cores| == |s.cores| && forall c :: 0 <= c < |s.cores| ==> |r.cores[c].queues| == |s.cores[c].queues|
  }

  // ------------------------------------------------------------------- each step

  lemma SelectOrders(s: Kernel, a: Step, c: nat)
    requires Inv(s) && Enabled(s, a) && Selects(a, c) && !Next(s, a).crashed
    ensures c < |s.cores| && Ordered(Next(s, a), c)
  {
    match a
    case Reschedule(_, k) =>
      S.SelectsBest(s, c, k);
      hide Next, Inv, CoreSound;
    case StartCore(_) =>
      SelectShape(s, c);
      assert HomeInv(s, c);
      var queues := s.cores[c].queues;
      if PopBest(queues).0.Some? {
        assert queues[Best(queues)][0] in queues[Best(queues)];
      }
      hide Select, CoreSound;
  }

  /** A step that is not core c's own selection leaves its processor alone and adds to its queues at most the
      thread it readies there. */
  lemma OtherSteps(s: Kernel, a: Step, c: nat)
    requires Inv(s) && Enabled(s, a) && !Selects(a, c) && c < |s.cores| && !Next(s, a).crashed
    ensures var r := Next(s, a);
      && r.cores[c].current == s.cores[c].current && |r.cores[c].queues| == |s.cores[c].queues|
      && forall p :: 0 <= p < |s.cores[c].queues| && r.cores[c].queues[p] != [] && s.cores[c].queues[p] == [] ==>
           && (a.Register? || a.Wake?) && s.pinned[a.t] == c && s.priority[a.t] == p
           && (!s.running || a.from == c)
  {
    match a
    case Reschedule(d, k) => S.OtherCore(s, d, k, c);
    case StartCore(d) => SelectShape(s, d);
    case _ =>
  }

  lemma OrderStep(s: Kernel, a: Step, c: nat, already: bool)
    requires Inv(s) && NotEarly(s) && Enabled(s, a) && c < |s.cores| && !Next(s, a).crashed
    requires s.cores[c].started ==> already || Ordered(s, c)
    ensures var r := Next(s, a);
      r.cores[c].started ==> (!Selects(a, c) && (already || Asks(s, a, c))) || Ordered(r, c)
  {
    var r := Next(s, a);
    if Selects(a, c) {
      SelectOrders(s, a, c);
    } else {
      OtherSteps(s, a, c);
      StartsBySelecting(s, a, c);
      hide Next, Inv, CoreSound;
    }
  }

  lemma StartsBySelecting(s: Kernel, a: Step, c: nat)
    requires Sound(s) && Enabled(s, a) && c < |s.cores|
    ensures Next(s, a).cores[c].started ==> s.cores[c].started || Selects(a, c)
  {
    match a
    case Reschedule(d, k) => if d != c { S.OtherCore(s, d, k, c); }
    case StartCore(d) => SelectShape(s, d);
    case _ =>
  }

  lemma StepKeepsRows(s: Kernel, a: Step)
    requires Inv(s) && NotEarly(s) && Enabled(s, a) && !Next(s, a).crashed
    ensures NotEarly(Next(s, a)) && SameRows(s, Next(s, a))
  {
    var r := Next(s, a);
    forall c: nat | c < |s.cores|
      ensures |r.cores[c].queues| == |s.cores[c].queues| && (r.cores[c].started ==> r.running)
    {
      RunningStays(s, a);
      StartsBySelecting(s, a, c);
      if Selects(a, c) {
        SelectRows(s, a, c);
      } else {
        OtherSteps(s, a, c);
      }
      hide Next, Inv, CoreSound;
    }
  }

  lemma RunningStays(s: Kernel, a: Step)
    requires Sound(s) && NotEarly(s) && Enabled(s, a)
    ensures s.running ==> Next(s, a).running
    ensures a.Reschedule? || a.StartCore? ==> s.running
  {
    if a.Reschedule? {
      DrainRunning(s, a.c, a.drained);
      SwitchRunning(Drain(s, a.c, a.drained), a.c);
    }
  }

  lemma {:induction false} DrainRunning(s: Kernel, c: nat, k: nat)
    requires Sound(s) && c < |s.cores| && k <= |s.cores[c].inbox|
    ensures Drain(s, c, k).running == s.running
    decreases k
  {
    if k > 0 {
      assert DrainOne(s, c).running == s.running;
      hide CoreSound, DrainOne;
      DrainRunning(DrainOne(s, c), c, k - 1);
    }
  }

  lemma SwitchRunning(s: Kernel, c: nat)
    requires Sound(s) && c < |s.cores|
    ensures Switch(s, c).running == s.running
  {
  }

  lemma SelectRows(s: Kernel, a: Step, c: nat)
    requires Inv(s) && Enabled(s, a) && Selects(a, c) && !Next(s, a).crashed
    ensures c < |s.cores| && |Next(s, a).cores[c].queues| == |s.cores[c].queues|
  {
    match a
    case Reschedule(_, k) =>
      S.SelectsBest(s, c, k);
      hide Next, Inv, CoreSound;
    case StartCore(_) => SelectShape(s, c);
  }

  lemma {:induction false} OrderRun(s: Kernel, run: seq<Step>, c: nat, already: bool)
    requires Inv(s) && NotEarly(s) && c < |s.cores|
    requires IsRun(s, run) && DisciplinedRun(s, run) && !Exec(s, run).crashed
    requires s.cores[c].started ==> already || Ordered(s, c)
    ensures var r := Exec(s, run);
      && Inv(r) && SameRows(s, r) && SameThreads(s, r)
      && (r.cores[c].started ==> Asked(s, run, c, already) || Ordered(r, c))
    decreases |run|
  {
    if run != [] {
      var a := run[0];
      NoCrashOnTheWay(s, run);
      Keep(s, a);
      OrderStep(s, a, c, already);
      StepKeepsRows(s, a);
      hide Inv, Next, Enabled, Ordered, Asks, CoreSound, NotEarly;
      OrderRun(Next(s, a), run[1..], c, !Selects(a, c) && (already || Asks(s, a, c)));
    }
  }

  /** In every state of every disciplined run: on a core for which no reschedule has been asked since it last
      selected, nothing ready is more urgent than what is on the processor. */
  lemma UrgentIsAskedFor(s0: Kernel, run: seq<Step>, c: nat)
    requires Initial(s0) && IsRun(s0, run) && DisciplinedRun(s0, run) && !Exec(s0, run).crashed && c < |s0.cores|
    ensures Exec(s0, run).cores[c].started && !Asked(s0, run, c, false) ==> Ordered(Exec(s0, run), c)
  {
    InitialInv(s0);
    OrderRun(s0, run, c, false);
  }

  // ------------------------------------------------------------- the idle thread

  /** After the run, core c idles although a thread is ready on it, and nobody has asked it to reschedule. */
  ghost predicate LeftBehind(s: Kernel, run: seq<Step>, c: nat, already: bool)
    requires Sound(s)
  {
    && IsRun(s, run) && DisciplinedRun(s, run) && !Exec(s, run).crashed && c < |s.cores|
    && Exec(s, run).cores[c].started && Exec(s, run).cores[c].current == None
    && !Empty(Exec(s, run).cores[c].queues) && !Asked(s, run, c, already)
  }

  /** Thread t has the last priority, that of the idle thread. */
  ghost predicate LastPriority(s: Kernel, t: nat)
    requires Sound(s)
  {
    t < |s.priority| && s.priority[t] == |s.cores[s.pinned[t]].queues| - 1
  }

  /** Whoever is left behind an idle core has the priority of the idle thread. */
  lemma LeftBehindIsLast(s0: Kernel, run: seq<Step>, c: nat) returns (t: nat)
    requires Initial(s0) && LeftBehind(s0, run, c, false)
    ensures LastPriority(s0, t)
  {
    InitialInv(s0);
    assert Sound(s0);
    hide Inv, Initial, CoreSound, Enabled, Next, Disciplined;
    OrderRun(s0, run, c, false);
    var r := Exec(s0, run);
    var p :| 0 <= p < |r.cores[c].queues| && r.cores[c].queues[p] != [];
    t := r.cores[c].queues[p][0];
    QueuedAtHome(r, c, p);
  }

  lemma QueuedAtHome(s: Kernel, c: nat, p: nat)
    requires Inv(s) && c < |s.cores| && p < |s.cores[c].queues| && s.cores[c].queues[p] != []
    ensures var t := s.cores[c].queues[p][0]; t < |s.state| && s.pinned[t] == c && s.priority[t] == p
  {
    assert HomeInv(s, c) && s.cores[c].queues[p][0] in s.cores[c].queues[p];
  }

  lemma FirstStep(s: Kernel, a: Step, run: seq<Step>, c: nat, already: bool)
    requires Sound(s) && Enabled(s, a) && Disciplined(s, a) && c < |s.cores|
    requires LeftBehind(Next(s, a), run, c, !Selects(a, c) && (already || Asks(s, a, c)))
    ensures LeftBehind(s, [a] + run, c, already)
  {
    assert ([a] + run)[1..] == run;
  }

  /** Thread t alone is registered and on its processor. */
  ghost predicate Alone(s: Kernel, c: nat, t: nat)
  {
    && Sound(s) && !s.crashed && s.running && c < |s.cores| && t < |s.state| && s.pinned[t] == c
    && s.cores[c].started && s.cores[c].current == Some(t) && s.state[t].Running?
    && Empty(s.cores[c].queues) && s.cores[c].inbox == []
  }

  /** It blocks, its core idles, and an interrupt handler on that core wakes it. */
  lemma IdleAnswers(s: Kernel, c: nat, t: nat) returns (run: seq<Step>)
    requires Alone(s, c, t) && LastPriority(s, t)
    ensures LeftBehind(s, run, c, false)
  {
    var s1 := Next(s, Block(c));
    assert s1.state[t] == Blocked && s1.waiting[t] && EntryAssertionsHold(s1, c);
    var s2 := Next(s1, Reschedule(c, 0));
    BlockedLeaves(s1, c, t);
    var s3 := Next(s2, Wake(t, c));
    assert s3.cores[c].queues[s.priority[t]] == [t];
    assert LeftBehind(s3, [], c, false);
    hide Next, Enabled, LeftBehind, CoreSound;
    FirstStep(s2, Wake(t, c), [], c, false);
    FirstStep(s1, Reschedule(c, 0), [Wake(t, c)], c, false);
    FirstStep(s, Block(c), [Reschedule(c, 0)] + [Wake(t, c)], c, false);
    run := [Block(c)] + ([Reschedule(c, 0)] + [Wake(t, c)]);
  }

  lemma BlockedLeaves(s: Kernel, c: nat, t: nat)
    requires Sound(s) && !s.crashed && c < |s.cores| && s.cores[c].started && s.cores[c].current == Some(t)
    requires t < |s.state| && s.state[t].Blocked? && Empty(s.cores[c].queues) && EntryAssertionsHold(s, c)
    ensures Enabled(s, Reschedule(c, 0))
    ensures Next(s, Reschedule(c, 0)) == SetCore(s, c, s.cores[c].(current := None))
  {
    SelectShape(Leave(s, c), c);
    assert Drain(s, c, 0) == s;
  }

  /** From the start, with only t ever registered. */
  lemma IdleMisses(s0: Kernel, t: nat) returns (run: seq<Step>)
    requires Initial(s0) && LastPriority(s0, t)
    ensures LeftBehind(s0, run, s0.pinned[t], false)
  {
    var c := s0.pinned[t];
    A.OneRuns(s0, c, t);
    var s1 := Next(s0, Register(t, c));
    var s2 := Next(s1, Start);
    var s3 := Next(s2, StartCore(c));
    SameRowsAlone(s0, c, t);
    assert !Asks(s0, Register(t, c), c) && !Asks(s1, Start, c);
    hide Next, Enabled, LeftBehind, CoreSound, Initial;
    run := IdleAnswers(s3, c, t);
    FirstStep(s2, StartCore(c), run, c, false);
    run := [StartCore(c)] + run;
    FirstStep(s1, Start, run, c, false);
    run := [Start] + run;
    FirstStep(s0, Register(t, c), run, c, false);
    run := [Register(t, c)] + run;
  }

  lemma SameRowsAlone(s: Kernel, c: nat, t: nat)
    requires Initial(s) && c < |s.cores| && IsThread(s, t) && s.pinned[t] == c
    requires Enabled(s, Register(t, c)) && Enabled(Next(s, Register(t, c)), Start)
    requires Enabled(Next(Next(s, Register(t, c)), Start), StartCore(c))
    ensures |Next(Next(Next(s, Register(t, c)), Start), StartCore(c)).cores[c].queues| == |s.cores[c].queues|
  {
    SelectShape(Next(Next(s, Register(t, c)), Start), c);
    hide Select, CoreSound;
  }

  /** Some disciplined run leaves a ready thread behind an idle core that nobody asks to reschedule, exactly
      when some thread has the priority of the idle thread. */
  lemma IdleMissesExactly(s0: Kernel)
    requires Initial(s0)
    ensures (exists run, c :: LeftBehind(s0, run, c, false)) <==> exists t :: LastPriority(s0, t)
  {
    if run, c :| LeftBehind(s0, run, c, false) {
      var t := LeftBehindIsLast(s0, run, c);
    }
    if t :| LastPriority(s0, t) {
      var run := IdleMisses(s0, t);
    }
  }
}
