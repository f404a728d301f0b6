/** Exactly when the kernel's assertions hold in every disciplined run. */
module KernelAssertions {
  import opened Config
  import opened Options
  import opened PriorityFifo
  import opened KernelRuns
  import opened KernelPlacement
  import opened KernelSelection

  // ------------------------------------------------------------ one step at a time

  /** The step posts to an inbox that is full. */
  ghost predicate Overflows(s: Kernel, a: Step)
    requires Sound(s)
  {
    && (a.Register? || a.Wake?) && IsThread(s, a.t)
    && s.running && a.from != s.pinned[a.t] && |s.cores[s.pinned[a.t]].inbox| >= INBOX_CAP
  }

  /** Of all the assertions, and the arm marked unreachable, a disciplined step can only fail the one on posting,
      and fails it exactly when the inbox is full. */
  lemma FailsExactly(s: Kernel, a: Step)
    requires Inv(s) && Enabled(s, a) && Disciplined(s, a)
    ensures Next(s, a).crashed <==> Overflows(s, a)
  {
    match a
    case Register(t, from) =>
    case Start =>
    case StartCore(c) => StartCoreKeeps(s, c);
    case Block(c) =>
    case Terminate(c) =>
    case Wake(t, from) => assert HomeInv(s, s.pinned[t]) && ThreadInv(s, t);
    case Reschedule(c, k) => RescheduleKeeps(s, c, k);
  }

  ghost function PinnedTo(pinned: seq<nat>, c: nat): set<nat>
  {
    set t: nat | t < |pinned| && pinned[t] == c
  }

  /** A thread has at most one request outstanding, and none when one is about to be posted for it. */
  lemma RoomForOne(s: Kernel, a: Step)
    requires Inv(s) && Enabled(s, a) && Disciplined(s, a) && (a.Register? || a.Wake?)
    requires |PinnedTo(s.pinned, s.pinned[a.t])| <= INBOX_CAP
    ensures |s.cores[s.pinned[a.t]].inbox| < INBOX_CAP
  {
    var c := s.pinned[a.t];
    var inbox := s.cores[c].inbox;
    assert HomeInv(s, c) && ThreadInv(s, a.t);
    assert a.t !in inbox;
    var ts := inbox + [a.t];
    assert a.t in ts && forall u :: u in ts ==> u in inbox || u == a.t;
    DistinctFits(ts, PinnedTo(s.pinned, c));
  }

  // ------------------------------------------------------------- the two conditions

  /** No core of several can be asked for more threads than its inbox holds. */
  ghost predicate Roomy(pinned: seq<nat>, cores: nat)
  {
    cores <= 1 || forall c :: 0 <= c < cores ==> |PinnedTo(pinned, c)| <= INBOX_CAP
  }

  /** No core can be asked by a thread of another one for more threads than its inbox holds. */
  ghost predicate RoomyForThreads(pinned: seq<nat>, cores: nat)
  {
    forall c :: 0 <= c < cores ==>
      |PinnedTo(pinned, c)| <= INBOX_CAP || forall t :: 0 <= t < |pinned| ==> pinned[t] == c
  }

  /** Every wake is made by a thread, none by an interrupt handler on an idle core. */
  ghost predicate ByThreads(s: Kernel, run: seq<Step>)
    requires Sound(s) && IsRun(s, run)
    decreases |run|
  {
    run != [] ==> (run[0].Wake? ==> HasThread(s, run[0].from)) && ByThreads(Next(s, run[0]), run[1..])
  }

  ghost predicate Crashes(s: Kernel, run: seq<Step>)
    requires Sound(s)
  {
    IsRun(s, run) && DisciplinedRun(s, run) && Exec(s, run).crashed
  }

  lemma NeverOverflows(s: Kernel, a: Step)
    requires Inv(s) && Enabled(s, a) && Disciplined(s, a)
    requires Roomy(s.pinned, |s.cores|) || (RoomyForThreads(s.pinned, |s.cores|) && (a.Wake? ==> HasThread(s, a.from)))
    ensures !Overflows(s, a)
  {
    if Overflows(s, a) {
      var c, d := s.pinned[a.t], a.from;
      assert HomeInv(s, d);
      if |PinnedTo(s.pinned, c)| <= INBOX_CAP { RoomForOne(s, a); }
    }
  }

  lemma {:induction false} NeverCrashes(s: Kernel, run: seq<Step>)
    requires Inv(s) && IsRun(s, run) && DisciplinedRun(s, run)
    requires Roomy(s.pinned, |s.cores|) || (RoomyForThreads(s.pinned, |s.cores|) && ByThreads(s, run))
    ensures !Exec(s, run).crashed
    decreases |run|
  {
    if run != [] {
      FailsExactly(s, run[0]);
      NeverOverflows(s, run[0]);
      Keep(s, run[0]);
      hide Inv, Next, Enabled, Disciplined, Roomy, RoomyForThreads, Overflows;
      NeverCrashes(Next(s, run[0]), run[1..]);
    }
  }

  // ------------------------------------------------------ a thread fills an inbox

  lemma FirstStep(s: Kernel, a: Step, run: seq<Step>)
    requires Sound(s) && Enabled(s, a) && Disciplined(s, a) && Crashes(Next(s, a), run)
    ensures Crashes(s, [a] + run)
    ensures ByThreads(Next(s, a), run) && (a.Wake? ==> HasThread(s, a.from)) ==> ByThreads(s, [a] + run)
  {
    assert ([a] + run)[1..] == run;
  }

  /** A thread on core d registers more threads than the inbox of core c has room for. */
  lemma {:induction false} RegisterTooMany(s: Kernel, c: nat, d: nat, todo: set<nat>) returns (run: seq<Step>)
    requires Sound(s) && !s.crashed && s.running && c < |s.cores| && c != d && HasThread(s, d)
    requires forall t :: t in todo ==> t < |s.state| && s.pinned[t] == c && s.state[t].Unregistered?
    requires |s.cores[c].inbox| + |todo| > INBOX_CAP && todo != {}
    ensures Crashes(s, run) && ByThreads(s, run)
    decreases todo
  {
    var t :| t in todo;
    var a := Register(t, d);
    var r := Next(s, a);
    if |s.cores[c].inbox| >= INBOX_CAP {
      assert Crashes(r, []);
      run := [];
    } else {
      assert |todo - {t}| == |todo| - 1;
      run := RegisterTooMany(r, c, d, todo - {t});
    }
    FirstStep(s, a, run);
    run := [a] + run;
  }

  /** Thread u alone is registered and its core d started: u is on the processor. */
  lemma OneRuns(s: Kernel, d: nat, u: nat)
    requires Initial(s) && d < |s.cores| && IsThread(s, u) && s.pinned[u] == d
    ensures Enabled(s, Register(u, d)) && Enabled(Next(s, Register(u, d)), Start)
    ensures Enabled(Next(Next(s, Register(u, d)), Start), StartCore(d))
    ensures var r := Next(Next(Next(s, Register(u, d)), Start), StartCore(d));
      && !r.crashed && r.running && r.cores[d].current == Some(u) && r.state[u].Running?
      && r.cores[d].started && Empty(r.cores[d].queues) && r.cores[d].inbox == []
      && (forall c :: 0 <= c < |s.cores| && c != d ==> r.cores[c].inbox == [])
      && (forall t :: 0 <= t < |s.state| && t != u ==> r.state[t].Unregistered?)
  {
    var was := s.cores[d].queues;
    var s1 := Next(s, Register(u, d));
    assert s1.state[u] == Ready;
    var now, p := s1.cores[d].queues, s.priority[u];
    assert now == Enqueue(was, p, u) && was[p] == [] && now[p] == [u];
    assert Best(now) == p;
    var s2 := Next(s1, Start);
    SelectShape(s2, d);
    hide Select, CoreSound;
  }

  /** With more threads pinned to core c than its inbox holds, and a thread u pinned elsewhere, u can fail the
      assertion on posting. */
  lemma ThreadOverfills(s: Kernel, c: nat, u: nat) returns (run: seq<Step>)
    requires Initial(s) && c < |s.cores| && |PinnedTo(s.pinned, c)| > INBOX_CAP && IsThread(s, u) && s.pinned[u] != c
    ensures Crashes(s, run) && ByThreads(s, run)
  {
    var d := s.pinned[u];
    OneRuns(s, d, u);
    var s1 := Next(s, Register(u, d));
    var s2 := Next(s1, Start);
    var s3 := Next(s2, StartCore(d));
    run := RegisterTooMany(s3, c, d, PinnedTo(s.pinned, c));
    hide Next, Enabled, Initial, Crashes;
    FirstStep(s2, StartCore(d), run);
    run := [StartCore(d)] + run;
    FirstStep(s1, Start, run);
    run := [Start] + run;
    FirstStep(s, Register(u, d), run);
    run := [Register(u, d)] + run;
  }

  // ------------------------------------------ an interrupt handler fills an inbox

  /** Every thread of core c is waiting, and core c is idle. */
  ghost predicate Wakeable(s: Kernel, c: nat, d: nat, todo: set<nat>)
  {
    && Sound(s) && !s.crashed && s.running && c < |s.cores| && d < |s.cores| && c != d
    && s.cores[d].started && s.cores[c].current == None
    && (forall t :: t in todo ==> t < |s.state| && s.pinned[t] == c && s.waiting[t] && s.state[t].Blocked?)
  }

  lemma {:induction false} WakeTooMany(s: Kernel, c: nat, d: nat, todo: set<nat>) returns (run: seq<Step>)
    requires Wakeable(s, c, d, todo) && |s.cores[c].inbox| + |todo| > INBOX_CAP && todo != {}
    ensures Crashes(s, run)
    decreases todo
  {
    var t :| t in todo;
    var a := Wake(t, d);
    var r := Next(s, a);
    if |s.cores[c].inbox| >= INBOX_CAP {
      assert Crashes(r, []);
      run := [];
    } else {
      assert |todo - {t}| == |todo| - 1;
      run := WakeTooMany(r, c, d, todo - {t});
    }
    FirstStep(s, a, run);
    run := [a] + run;
  }

  /** Cores c and d have started, and every thread of core c is registered, unterminated and not in the inbox. */
  ghost predicate Parking(s: Kernel, c: nat, d: nat)
  {
    && Inv(s) && s.running && c < |s.cores| && d < |s.cores| && c != d
    && s.cores[c].started && s.cores[d].started && s.cores[c].inbox == []
    && (forall t :: 0 <= t < |s.state| && s.pinned[t] == c ==> s.state[t] !in {Unregistered, Terminated})
  }

  ghost function Unparked(s: Kernel, c: nat): set<nat>
    requires Sound(s)
  {
    set t: nat | t < |s.pinned| && s.pinned[t] == c && !s.waiting[t]
  }

  lemma ParkRunning(s: Kernel, c: nat, d: nat)
    requires Parking(s, c, d) && RunsAThread(s, c)
    ensures Enabled(s, Block(c)) && Parking(Next(s, Block(c)), c, d)
    ensures s.cores[c].current.value in Unparked(s, c)
    ensures Unparked(Next(s, Block(c)), c) == Unparked(s, c) - {s.cores[c].current.value}
  {
    var t := s.cores[c].current.value;
    BlockKeeps(s, c);
    assert HomeInv(s, c) && s.cores[c].current == Some(t) && ThreadInv(s, t);
    hide HomeInv, CoreSound;
  }

  /** Nothing but states of the living changes, and none of them dies. */
  ghost predicate KeepsAlive(s: Kernel, r: Kernel)
  {
    && r.running == s.running && r.waiting == s.waiting && |r.state| == |s.state|
    && (forall t :: 0 <= t < |s.state| && s.state[t] !in {Unregistered, Terminated} ==>
         r.state[t] !in {Unregistered, Terminated})
  }

  lemma SelectKeepsAlive(s: Kernel, c: nat)
    requires Sound(s) && c < |s.cores|
    ensures KeepsAlive(s, Select(s, c)) && Select(s, c).cores[c].started
  {
    SelectShape(s, c);
  }

  lemma RescheduleKeepsAlive(s: Kernel, c: nat)
    requires Inv(s) && Enabled(s, Reschedule(c, 0))
    ensures KeepsAlive(s, Next(s, Reschedule(c, 0))) && Next(s, Reschedule(c, 0)).cores[c].started
  {
    EntryAssertions(s, c) by { assert HomeInv(s, c); }
    RescheduleKeeps(s, c, 0);
    assert Drain(s, c, 0) == s;
    hide Select, CoreSound, Inv;
    match s.cores[c].current
    case None => SelectKeepsAlive(s, c);
    case Some(t) =>
      if s.state[t].Running? {
        assert KeepsAlive(s, MakeReady(Leave(s, c), c, t));
        hide MakeReady;
        SelectKeepsAlive(MakeReady(Leave(s, c), c, t), c);
      } else {
        SelectKeepsAlive(Leave(s, c), c);
      }
  }

  lemma ParkingReschedules(s: Kernel, c: nat, d: nat)
    requires Parking(s, c, d)
    ensures Enabled(s, Reschedule(c, 0)) && Parking(Next(s, Reschedule(c, 0)), c, d)
    ensures Unparked(Next(s, Reschedule(c, 0)), c) == Unparked(s, c)
  {
    RescheduleKeeps(s, c, 0);
    SelectsBest(s, c, 0);
    RescheduleKeepsAlive(s, c);
    OtherCore(s, c, 0, d);
    hide Next, Contenders, CoreSound, HomeInv;
  }

  /** An unparked thread that is not running is queued, so one of its core will run. */
  lemma SomeoneRuns(s: Kernel, c: nat, d: nat, t: nat)
    requires Parking(s, c, d) && t in Unparked(s, c) && !RunsAThread(s, c)
    ensures Enabled(s, Reschedule(c, 0)) && RunsAThread(Next(s, Reschedule(c, 0)), c)
  {
    SelectsBest(s, c, 0);
    assert HomeInv(s, c) && ThreadInv(s, t) && Queued(s, t);
    RowGrows(s, c, 0, s.priority[t]);
    hide Next, Contenders, CoreSound, HomeInv;
  }

  lemma NobodyRuns(s: Kernel, c: nat, d: nat)
    requires Parking(s, c, d) && Unparked(s, c) == {}
    ensures Enabled(s, Reschedule(c, 0)) && Next(s, Reschedule(c, 0)).cores[c].current == None
  {
    var r := Next(s, Reschedule(c, 0));
    ParkingReschedules(s, c, d);
    SelectsBest(s, c, 0);
    NoneRunning(r, c);
    hide Next, Contenders, CoreSound, Parking;
  }

  lemma NoneRunning(s: Kernel, c: nat)
    requires Inv(s) && c < |s.cores| && Unparked(s, c) == {}
    ensures !RunsAThread(s, c)
  {
    assert HomeInv(s, c);
    forall t | 0 <= t < |s.state| && s.pinned[t] == c ensures !s.state[t].Running? {
      assert t !in Unparked(s, c) && ThreadInv(s, t);
    }
    hide CoreSound, InboxInv, QueueInv;
  }

  /** Block each thread of core c in turn, then wake them all from core d. */
  lemma {:induction false} ParkThenWake(s: Kernel, c: nat, d: nat) returns (run: seq<Step>)
    requires Parking(s, c, d) && |PinnedTo(s.pinned, c)| > INBOX_CAP
    ensures Crashes(s, run)
    decreases |Unparked(s, c)|, if RunsAThread(s, c) then 0 else 1
  {
    if RunsAThread(s, c) {
      ParkRunning(s, c, d);
      hide Parking, Next, Enabled;
      run := ParkThenWake(Next(s, Block(c)), c, d);
      FirstStep(s, Block(c), run);
      run := [Block(c)] + run;
    } else {
      ParkingReschedules(s, c, d);
      var r := Next(s, Reschedule(c, 0));
      if t :| t in Unparked(s, c) {
        SomeoneRuns(s, c, d, t);
        hide Parking, Next, Enabled;
        run := ParkThenWake(r, c, d);
      } else {
        NobodyRuns(s, c, d);
        AllWakeable(r, c, d);
        hide Parking, Next, Enabled, Wakeable;
        run := WakeTooMany(r, c, d, PinnedTo(s.pinned, c));
      }
      FirstStep(s, Reschedule(c, 0), run);
      run := [Reschedule(c, 0)] + run;
    }
  }

  lemma AllWakeable(s: Kernel, c: nat, d: nat)
    requires Parking(s, c, d) && Unparked(s, c) == {} && s.cores[c].current == None
    ensures Wakeable(s, c, d, PinnedTo(s.pinned, c))
  {
    forall t | t in PinnedTo(s.pinned, c) ensures s.waiting[t] && s.state[t].Blocked? {
      assert t !in Unparked(s, c);
      assert HomeInv(s, c) && ThreadInv(s, t);
    }
  }

  /** The threads of core c are being registered before the cores run. */
  ghost predicate Enrolling(s: Kernel, c: nat, todo: set<nat>)
  {
    && Inv(s) && !s.running && c < |s.cores| && todo <= PinnedTo(s.pinned, c)
    && (forall e :: 0 <= e < |s.cores| ==> !s.cores[e].started && s.cores[e].inbox == [])
    && (forall t :: 0 <= t < |s.state| && s.pinned[t] == c ==> s.state[t] == if t in todo then Unregistered else Ready)
  }

  lemma EnrolOne(s: Kernel, c: nat, todo: set<nat>, t: nat)
    requires Enrolling(s, c, todo) && t in todo
    ensures Enabled(s, Register(t, 0)) && Enrolling(Next(s, Register(t, 0)), c, todo - {t})
  {
    FailsExactly(s, Register(t, 0));
    Keep(s, Register(t, 0));
    hide Inv, CoreSound;
  }

  lemma StartOne(s: Kernel, e: nat)
    requires Inv(s) && Enabled(s, StartCore(e))
    ensures var r := Next(s, StartCore(e));
      && Inv(r) && KeepsAlive(s, r) && r.cores[e].started && r.cores[e].inbox == s.cores[e].inbox
      && (forall c :: 0 <= c < |s.cores| && c != e ==> r.cores[c] == s.cores[c])
  {
    StartCoreKeeps(s, e);
    SelectKeepsAlive(s, e);
    SelectShape(s, e);
    hide Inv, CoreSound, Select, KeepsAlive;
  }

  lemma StartBoth(s: Kernel, c: nat, d: nat)
    requires Enrolling(s, c, {}) && d < |s.cores| && c != d && PinnedTo(s.pinned, c) != {}
    ensures Enabled(s, Start) && Enabled(Next(s, Start), StartCore(d))
    ensures Enabled(Next(Next(s, Start), StartCore(d)), StartCore(c))
    ensures Parking(Next(Next(Next(s, Start), StartCore(d)), StartCore(c)), c, d)
  {
    var t :| t in PinnedTo(s.pinned, c);
    assert !s.state[t].Unregistered?;
    Keep(s, Start);
    var s1 := Next(s, Start);
    hide Inv, CoreSound, Begin;
    StartOne(s1, d);
    var s2 := Next(s1, StartCore(d));
    StartOne(s2, c);
    var s3 := Next(s2, StartCore(c));
    assert s3.pinned == s.pinned && s3.running;
  }

  lemma {:induction false} EnrolThenPark(s: Kernel, c: nat, d: nat, todo: set<nat>) returns (run: seq<Step>)
    requires Enrolling(s, c, todo) && d < |s.cores| && c != d && |PinnedTo(s.pinned, c)| > INBOX_CAP
    ensures Crashes(s, run)
    decreases todo
  {
    if t :| t in todo {
      EnrolOne(s, c, todo, t);
      hide Enrolling, Next, Enabled;
      run := EnrolThenPark(Next(s, Register(t, 0)), c, d, todo - {t});
      FirstStep(s, Register(t, 0), run);
      run := [Register(t, 0)] + run;
    } else {
      StartBoth(s, c, d);
      hide Enrolling, Parking, Next, Enabled;
      var s1 := Next(s, Start);
      var s2 := Next(s1, StartCore(d));
      run := ParkThenWake(Next(s2, StartCore(c)), c, d);
      FirstStep(s2, StartCore(c), run);
      run := [StartCore(c)] + run;
      FirstStep(s1, StartCore(d), run);
      run := [StartCore(d)] + run;
      FirstStep(s, Start, run);
      run := [Start] + run;
    }
  }

  // ---------------------------------------------------------------- main results

  /** No disciplined run of a kernel fails an assertion or reaches the unreachable arm,
      exactly when there is one core or no core has more threads than inbox slots. */
  lemma NoAssertionFailsExactly(s0: Kernel)
    requires Initial(s0)
    ensures (forall run :: !Crashes(s0, run)) <==> Roomy(s0.pinned, |s0.cores|)
  {
    InitialInv(s0);
    if Roomy(s0.pinned, |s0.cores|) {
      forall run | IsRun(s0, run) && DisciplinedRun(s0, run) ensures !Exec(s0, run).crashed {
        NeverCrashes(s0, run);
      }
    } else {
      var c :| 0 <= c < |s0.cores| && |PinnedTo(s0.pinned, c)| > INBOX_CAP;
      var run := EnrolThenPark(s0, c, if c == 0 then 1 else 0, PinnedTo(s0.pinned, c));
    }
  }

  /** When only threads wake threads, the same holds exactly when a core with more threads than inbox slots has
      all the threads there are. */
  lemma NoAssertionFailsByThreadsExactly(s0: Kernel)
    requires Initial(s0)
    ensures (forall run :: !(Crashes(s0, run) && ByThreads(s0, run))) <==> RoomyForThreads(s0.pinned, |s0.cores|)
  {
    InitialInv(s0);
    if RoomyForThreads(s0.pinned, |s0.cores|) {
      forall run | IsRun(s0, run) && DisciplinedRun(s0, run) && ByThreads(s0, run) ensures !Exec(s0, run).crashed {
        NeverCrashes(s0, run);
      }
    } else {
      var c :| 0 <= c < |s0.cores| && |PinnedTo(s0.pinned, c)| > INBOX_CAP
        && exists t :: 0 <= t < |s0.pinned| && s0.pinned[t] != c;
      var u :| 0 <= u < |s0.pinned| && s0.pinned[u] != c;
      var run := ThreadOverfills(s0, c, u);
    }
  }
}
