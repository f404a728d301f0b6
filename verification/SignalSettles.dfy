/** What a signal leaves behind. When the signalling after the flag has finished, a node that still stands
    on the flag's queue belongs to a wait that has been won, and one signaller is on its way to unlink it;
    every run then gets there, in a number of steps that what is under way and what is asked for bound. */
module SignalSettles {
  import opened Options
  import opened PriorityFifo
  import opened Signals
  import opened SignalInvariant

  // ------------------------------------------------------ when the scan is over

  /** Signaller k, and no other, has won the wait of t and has yet to unlink it. */
  ghost predicate SoleWinner(s: System, t: nat, k: nat)
  {
    && k < |s.signallers| && Owns(s.signallers[k], t) && !s.signallers[k].Readying?
    && forall j :: 0 <= j < |s.signallers| && Owns(s.signallers[j], t) ==> j == k
  }

  /** Once the flag is set and its `signal_all` has returned, no undecided `wait_until` on it is left on any
      queue, and none ever will be: whatever node of one is still linked, its wait has been won and its one
      winner is about to unlink it. */
  lemma LeftToTheWinner(s: System, run: seq<Step>, more: seq<Step>, t: nat, slot: nat, w: nat) returns (k: nat)
    requires Initial(s) && IsRun(s, run) && Exec(s, run).termination.Finished?
    requires IsRun(Exec(s, run), more)
    requires var r := Exec(Exec(s, run), more); OnQueue(r, t, slot, w) && r.threads[t].guarded
    ensures var r := Exec(Exec(s, run), more); Decided(r, t) && SoleWinner(r, t, k)
  {
    InitialInv(s);
    KeepRun(s, run);
    var m := Exec(s, run);
    KeepRun(m, more);
    StaysFinished(m, more);
    k := WinnerOf(Exec(m, more), t, slot, w);
  }

  lemma WinnerOf(r: System, t: nat, slot: nat, w: nat) returns (k: nat)
    requires Inv(r) && r.termination.Finished? && OnQueue(r, t, slot, w) && r.threads[t].guarded
    ensures Decided(r, t) && SoleWinner(r, t, k)
  {
    assert ThreadInv(r, t);
    k :| k < |r.signallers| && Owns(r.signallers[k], t);
    assert SignallerInv(r, k);
  }

  lemma {:induction false} StaysFinished(s: System, run: seq<Step>)
    requires Shaped(s) && IsRun(s, run) && s.termination.Finished?
    ensures Exec(s, run).termination.Finished?
    decreases |run|
  {
    if run != [] {
      NextShaped(s, run[0]);
      StaysFinished(Next(s, run[0]), run[1..]);
    }
  }

  // ----------------------------------------------------------------- the bound

  /** The step asks for something new: a wait, or a signal. */
  predicate Asks(a: Step)
  {
    a.Begin? || a.Start? || a.Terminate?
  }

  /** What one undecided wait can still cost: its teardown, and a lost round for each signaller. */
  ghost function WaitCost(s: System): nat
  {
    s.slots + 3 * |s.signallers| + 6
  }

  ghost function ThreadRank(s: System, t: nat): nat
    requires t < |s.threads|
  {
    match s.threads[t].mode
    case Awake => 0
    case Blocked(_) => if s.threads[t].done then 0 else WaitCost(s)
    case Entering(ws, i) => WaitCost(s) + 1 + if i < |ws| then |ws| - i else 0
  }

  /** A wake of a wait that is decided by now is lost, and its signaller looks again. */
  ghost function Rank(s: System, k: nat): nat
    requires Shaped(s) && Is(s, k)
  {
    var p := s.signallers[k];
    assert SignallerShaped(s, p);
    match p
    case Idle => 0
    case Scanning(_, _) => 3
    case Picking(_, _) => 2
    case Waking(_, _, t, _, _) => if Decided(s, t) then 4 else 1
    case Tearing(_, _, _) => s.slots + 6
    case Unlinking(_, _, t) => 5 + s.slots - LowestUsed(s.threads[t].nodes)
    case Readying(_, _, _) => 4
  }

  ghost function ThreadSum(s: System, n: nat): nat
    requires n <= |s.threads|
  {
    if n == 0 then 0 else ThreadSum(s, n - 1) + ThreadRank(s, n - 1)
  }

  ghost function RankSum(s: System, n: nat): nat
    requires Shaped(s) && n <= |s.signallers|
  {
    if n == 0 then 0 else RankSum(s, n - 1) + Rank(s, n - 1)
  }

  ghost function Work(s: System): nat
    requires Shaped(s)
  {
    ThreadSum(s, |s.threads|) + RankSum(s, |s.signallers|) + if s.crashed then 0 else 1
  }

  /** All threads but t weigh the same. */
  lemma {:induction false} ThreadSumOfOne(s: System, r: System, t: nat, n: nat)
    requires |s.threads| == |r.threads| && n <= |s.threads| && t < |s.threads|
    requires forall u :: 0 <= u < |s.threads| && u != t ==> ThreadRank(r, u) == ThreadRank(s, u)
    ensures ThreadSum(r, n) - ThreadSum(s, n) == if t < n then ThreadRank(r, t) - ThreadRank(s, t) else 0
  {
    if n > 0 {
      ThreadSumOfOne(s, r, t, n - 1);
    }
  }

  lemma {:induction false} ThreadSumSame(s: System, r: System, n: nat)
    requires |s.threads| == |r.threads| && n <= |s.threads|
    requires forall u :: 0 <= u < |s.threads| ==> ThreadRank(r, u) == ThreadRank(s, u)
    ensures ThreadSum(r, n) == ThreadSum(s, n)
  {
    if n > 0 {
      ThreadSumSame(s, r, n - 1);
    }
  }

  /** Signaller k weighs `more` more, the others no more than before. */
  lemma {:induction false} RankSumOfOne(s: System, r: System, k: nat, more: int, n: nat)
    requires Shaped(s) && Shaped(r) && |s.signallers| == |r.signallers| && n <= |s.signallers|
    requires forall j: nat :: j < |s.signallers| ==> Rank(r, j) <= Rank(s, j) + if j == k then more else 0
    ensures RankSum(r, n) <= RankSum(s, n) + if k < n then more else 0
  {
    if n > 0 {
      RankSumOfOne(s, r, k, more, n - 1);
    }
  }

  /** Signaller k weighs `more` more, and any other three more at most. */
  lemma {:induction false} RankSumRaised(s: System, r: System, k: nat, more: nat, n: nat)
    requires Shaped(s) && Shaped(r) && |s.signallers| == |r.signallers| && n <= |s.signallers|
    requires forall j: nat :: j < |s.signallers| ==> Rank(r, j) <= Rank(s, j) + if j == k then more else 3
    ensures RankSum(r, n) <= RankSum(s, n) + 3 * n + if k < n then more else 0
  {
    if n > 0 {
      RankSumRaised(s, r, k, more, n - 1);
    }
  }

  // ------------------------------------------------------------ step by step

  /** The step is the wake that wins. */
  ghost predicate Winning(s: System, a: Step, r: System)
    requires Leads(s, a, r)
  {
    a.Wake? && r.signallers[a.k].Tearing?
  }

  predicate OfThread(a: Step)
  {
    a.Begin? || a.Enter? || a.Block?
  }

  /** A step of somebody else raises a signaller's rank only by winning the wait it was about to wake. */
  lemma OthersRank(s: System, a: Step, r: System, j: nat)
    requires Inv(s) && Leads(s, a, r) && Is(s, j) && (OfThread(a) || a.k != j)
    ensures Rank(r, j) <= Rank(s, j) + if Winning(s, a, r) then 3 else 0
  {
    assert SignallerInv(s, j);
    var p := s.signallers[j];
    if p.Unlinking? {
      OnlyUnlinked(s, a, r, j, p.t);
      LowestRises(s.threads[p.t].nodes, r.threads[p.t].nodes);
    } else if p.Waking? && !Winning(s, a, r) && !Decided(s, p.t) {
      DecidedByWinning(s, a, r, p.t);
    }
  }

  lemma LowestRises(before: seq<Option<Node>>, after: seq<Option<Node>>)
    requires |before| == |after| && forall j :: 0 <= j < |before| && after[j].Some? ==> before[j].Some?
    ensures LowestUsed(before) <= LowestUsed(after)
  {
  }

  lemma DecidedByWinning(s: System, a: Step, r: System, t: nat)
    requires Inv(s) && Leads(s, a, r) && t < |s.threads| && !Winning(s, a, r) && !Decided(s, t)
    ensures !Decided(r, t)
  {
    assert ThreadInv(s, t);
  }

  /** A signaller's own step brings it nearer to its return, unless it wins or fails. */
  lemma OwnRank(s: System, a: Step, r: System)
    requires Inv(s) && Leads(s, a, r) && !OfThread(a) && !Asks(a) && !Winning(s, a, r) && !r.crashed
    ensures Rank(r, a.k) < Rank(s, a.k)
  {
    assert SignallerInv(s, a.k);
    if a.Unlink? {
      var before, after := s.threads[s.signallers[a.k].t].nodes, r.threads[s.signallers[a.k].t].nodes;
      assert LowestUsed(before) < |before| ==> LowestUsed(before) < LowestUsed(after);
    }
  }

  lemma OthersThread(s: System, a: Step, r: System, t: nat)
    requires Inv(s) && Leads(s, a, r) && t < |s.threads| && !(OfThread(a) && a.t == t)
    ensures ThreadRank(r, t) == ThreadRank(s, t) || Winning(s, a, r)
  {
    assert ThreadInv(s, t);
    if a.Unlink? || a.Ready? {
      assert SignallerInv(s, a.k);
    }
  }

  // ---------------------------------------------------------------- the whole

  lemma OwnThread(s: System, a: Step, r: System)
    requires Inv(s) && Leads(s, a, r) && OfThread(a)
    ensures if a.Begin? then ThreadRank(r, a.t) <= ThreadRank(s, a.t) + AskCost(s)
            else ThreadRank(r, a.t) < ThreadRank(s, a.t)
  {
    assert ThreadInv(s, a.t);
  }

  /** The most that one new wait or signal adds. */
  ghost function AskCost(s: System): nat
  {
    WaitCost(s) + 1 + s.slots
  }

  /** What a step of thread a.t does to the sums. */
  lemma ThreadSums(s: System, a: Step, r: System)
    requires Inv(s) && Leads(s, a, r) && OfThread(a)
    ensures Work(r) - Work(s) <= ThreadRank(r, a.t) - ThreadRank(s, a.t)
  {
    assert r.crashed == s.crashed;
    hide Inv, Enabled, Next, ThreadRank, Rank;
    forall u: nat | u < |s.threads| && u != a.t ensures ThreadRank(r, u) == ThreadRank(s, u) {
      OthersThread(s, a, r, u);
    }
    ThreadSumOfOne(s, r, a.t, |s.threads|);
    forall j: nat | j < |s.signallers| ensures Rank(r, j) <= Rank(s, j) {
      OthersRank(s, a, r, j);
    }
    RankSumOfOne(s, r, |s.signallers|, 0, |s.signallers|);
  }

  /** What a step of signaller a.k does, when it does not win. */
  lemma SignallerSums(s: System, a: Step, r: System, more: int)
    requires Inv(s) && Leads(s, a, r) && !OfThread(a) && !Winning(s, a, r) && Rank(r, a.k) <= Rank(s, a.k) + more
    ensures Work(r) <= Work(s) + more - if r.crashed then 1 else 0
  {
    assert Is(s, a.k) && !s.crashed;
    hide Inv, Enabled, Next, ThreadRank, Rank;
    forall u: nat | u < |s.threads| ensures ThreadRank(r, u) == ThreadRank(s, u) {
      OthersThread(s, a, r, u);
    }
    ThreadSumSame(s, r, |s.threads|);
    forall j: nat | j < |s.signallers| ensures Rank(r, j) <= Rank(s, j) + if j == a.k then more else 0 {
      if j != a.k {
        OthersRank(s, a, r, j);
      }
    }
    RankSumOfOne(s, r, a.k, more, |s.signallers|);
  }

  lemma WinningRanks(s: System, a: Step, r: System)
    requires Inv(s) && Leads(s, a, r) && Winning(s, a, r)
    ensures s.signallers[a.k].Waking? && var t := s.signallers[a.k].t;
      && t < |s.threads| && ThreadRank(s, t) == WaitCost(s) && ThreadRank(r, t) == 0
      && Rank(r, a.k) <= Rank(s, a.k) + s.slots + 5
      && (forall u :: 0 <= u < |s.threads| && u != t ==> ThreadRank(r, u) == ThreadRank(s, u))
  {
  }

  lemma WinningSums(s: System, a: Step, r: System)
    requires Inv(s) && Leads(s, a, r) && Winning(s, a, r)
    ensures Work(r) < Work(s)
  {
    assert r.crashed == s.crashed;
    WinningRanks(s, a, r);
    hide Inv, Enabled, Next, ThreadRank, Rank, Winning;
    ThreadSumOfOne(s, r, s.signallers[a.k].t, |s.threads|);
    forall j: nat | j < |s.signallers| ensures Rank(r, j) <= Rank(s, j) + if j == a.k then s.slots + 5 else 3 {
      if j != a.k {
        OthersRank(s, a, r, j);
      }
    }
    RankSumRaised(s, r, a.k, s.slots + 5, |s.signallers|);
  }

  /** Every step but a new request uses up work; a request adds no more than AskCost. */
  lemma StepWorks(s: System, a: Step, r: System)
    requires Inv(s) && Leads(s, a, r)
    ensures if Asks(a) then Work(r) <= Work(s) + AskCost(s) else Work(r) < Work(s)
  {
    if OfThread(a) {
      OwnThread(s, a, r);
      ThreadSums(s, a, r);
    } else if Asks(a) {
      SignallerSums(s, a, r, 3);
    } else if Winning(s, a, r) {
      WinningSums(s, a, r);
    } else if r.crashed {
      SignallerSums(s, a, r, 0);
    } else {
      OwnRank(s, a, r);
      SignallerSums(s, a, r, -1);
    }
  }

  /** How many waits and signals a run asks for. */
  ghost function Asked(run: seq<Step>): nat
  {
    if run == [] then 0 else (if Asks(run[0]) then 1 else 0) + Asked(run[1..])
  }

  lemma FirstStepWorks(s: System, run: seq<Step>, r: System)
    requires Inv(s) && IsRun(s, run) && run != [] && Leads(s, run[0], r)
    ensures Inv(r) && IsRun(r, run[1..]) && Exec(s, run) == Exec(r, run[1..]) && AskCost(r) == AskCost(s)
    ensures Asked(run) == Asked(run[1..]) + if Asks(run[0]) then 1 else 0
    ensures if Asks(run[0]) then Work(r) <= Work(s) + AskCost(s) else Work(r) < Work(s)
  {
    hide Inv, Enabled, Next, Work;
    Keep(s, run[0], r);
    StepWorks(s, run[0], r);
  }

  /** What the rest of a run may cost, with the first step added. */
  lemma OneMore(asks: bool, asked: nat, cost: nat, steps: int, before: int, after: int, end: int)
    requires if asks then after <= before + cost else after < before
    requires steps - asked + end <= after + asked * cost
    ensures var all := asked + if asks then 1 else 0; steps + 1 - all + end <= before + all * cost
  {
    if asks {
      assert (asked + 1) * cost == asked * cost + cost;
    }
  }

  lemma {:induction false} RunWorks(s: System, run: seq<Step>)
    requires Inv(s) && IsRun(s, run)
    ensures |run| - Asked(run) + Work(Exec(s, run)) <= Work(s) + Asked(run) * AskCost(s)
    decreases |run|
  {
    if run != [] {
      NextShaped(s, run[0]);
      var r := Next(s, run[0]);
      hide *;
      FirstStepWorks(s, run, r);
      var rest := run[1..];
      RunWorks(r, rest);
      OneMore(Asks(run[0]), Asked(rest), AskCost(s), |rest|, Work(s), Work(r), Work(Exec(r, rest)));
    }
  }

  lemma {:induction false} NothingToDo(s: System, n: nat, m: nat)
    requires Initial(s) && n <= |s.threads| && m <= |s.signallers|
    ensures ThreadSum(s, n) == 0 && RankSum(s, m) == 0
    decreases n, m
  {
    if n > 0 {
      NothingToDo(s, n - 1, m);
    } else if m > 0 {
      NothingToDo(s, n, m - 1);
    }
  }

  /** Signalling never spins: all the steps of a run, on all cores together, are bounded by the waits and
      the signals that the run asks for. */
  lemma StepsBounded(s: System, run: seq<Step>)
    requires Initial(s) && IsRun(s, run)
    ensures |run| - Asked(run) <= 1 + Asked(run) * AskCost(s)
  {
    InitialInv(s);
    NothingToDo(s, |s.threads|, |s.signallers|);
    RunWorks(s, run);
  }

  // ------------------------------------------------------------- when all is done

  /** Nothing is under way: no signal, no thread on its way in, no lock held; whoever is blocked is
      undecided and stands on each waitable of its wait. */
  ghost predicate Quiet(s: System)
  {
    && (forall k :: 0 <= k < |s.signallers| ==> s.signallers[k].Idle?)
    && (forall w :: 0 <= w < |s.locks| ==> s.locks[w].None?)
    && (forall t :: 0 <= t < |s.threads| ==> Resting(s.threads[t]))
  }

  ghost predicate Resting(th: Thread)
  {
    match th.mode
    case Awake => AllFree(th.nodes)
    case Blocked(ws) => !th.done && Linked(th.nodes, ws, |ws|)
    case Entering(_, _) => false
  }

  /** No step is left but a new request. */
  ghost predicate Rests(s: System)
    requires Shaped(s)
  {
    forall a :: Enabled(s, a) ==> Asks(a)
  }

  lemma EnteringGoesOn(s: System, t: nat) returns (a: Step)
    requires Inv(s) && !s.crashed && t < |s.threads| && s.threads[t].mode.Entering?
    ensures Enabled(s, a) && !Asks(a)
  {
    assert ThreadInv(s, t);
    var i := s.threads[t].mode.added;
    if i < |s.threads[t].mode.ws| {
      a := Enter(t);
      assert s.threads[t].nodes[i].None?;
    } else {
      a := Block(t);
    }
  }

  /** A signaller that waits for no lock can go on. */
  lemma SignallerGoesOn(s: System, k: nat) returns (a: Step)
    requires Inv(s) && !s.crashed && Is(s, k)
    requires !s.signallers[k].Idle? && !s.signallers[k].Scanning? && !s.signallers[k].Tearing?
    ensures Enabled(s, a) && !Asks(a)
  {
    match s.signallers[k]
    case Picking(w, _) =>
      if t: nat, slot: nat :| OnQueue(s, t, slot, w) && !s.threads[t].done {
        a := Pick(k, t, slot);
      } else {
        a := PickNone(k);
      }
    case Waking(_, _, _, _, _) => a := Wake(k);
    case Unlinking(_, _, _) => a := Unlink(k);
    case Readying(_, _, _) => a := Ready(k);
  }

  lemma LocksFree(s: System, w: nat)
    requires Inv(s) && w < |s.locks| && forall t :: 0 <= t < |s.threads| ==> !s.threads[t].mode.Entering?
    requires forall k :: 0 <= k < |s.signallers| ==> !s.signallers[k].Picking? && !s.signallers[k].Unlinking?
    ensures Free(s, w)
  {
    assert LockInv(s, w);
  }

  lemma StandsOnRealOnes(s: System, t: nat)
    requires Inv(s) && t < |s.threads| && s.threads[t].mode.Blocked?
    ensures forall w :: w in WaitsOn(s.threads[t].nodes) ==> w < |s.locks|
  {
    assert ThreadInv(s, t);
    var nodes, ws := s.threads[t].nodes, s.threads[t].mode.ws;
    forall w | w in WaitsOn(nodes) ensures w < |s.locks| {
      var j :| 0 <= j < |nodes| && nodes[j].Some? && nodes[j].value.w == w;
      assert nodes[j].value == Node(ws[j], j) && ws[j] in ws;
    }
  }

  /** With the locks free, so can one that waits for them. */
  lemma WaiterGoesOn(s: System, k: nat) returns (a: Step)
    requires Inv(s) && !s.crashed && Is(s, k) && (s.signallers[k].Scanning? || s.signallers[k].Tearing?)
    requires forall w: nat :: w < |s.locks| ==> Free(s, w)
    ensures Enabled(s, a) && !Asks(a)
  {
    assert SignallerShaped(s, s.signallers[k]) && SignallerInv(s, k);
    if s.signallers[k].Scanning? {
      a := Lock(k);
    } else {
      a := LockGroup(k);
      StandsOnRealOnes(s, s.signallers[k].t);
    }
  }

  lemma SomethingGoesOn(s: System) returns (a: Step)
    requires Inv(s) && !s.crashed && !Quiet(s)
    ensures Enabled(s, a) && !Asks(a)
  {
    hide Enabled;
    if t: nat :| t < |s.threads| && s.threads[t].mode.Entering? {
      a := EnteringGoesOn(s, t);
    } else if k: nat :| Is(s, k) && !s.signallers[k].Idle? && !s.signallers[k].Scanning? && !s.signallers[k].Tearing? {
      a := SignallerGoesOn(s, k);
    } else {
      forall w: nat | w < |s.locks| ensures Free(s, w) {
        LocksFree(s, w);
      }
      var k := SomebodyWaits(s);
      a := WaiterGoesOn(s, k);
    }
  }

  lemma IdleIsQuiet(s: System)
    requires Inv(s) && forall t :: 0 <= t < |s.threads| ==> !s.threads[t].mode.Entering?
    requires forall w: nat :: w < |s.locks| ==> Free(s, w)
    requires forall k :: 0 <= k < |s.signallers| ==> s.signallers[k].Idle?
    ensures Quiet(s)
  {
    forall t: nat | t < |s.threads| ensures Resting(s.threads[t]) {
      assert ThreadInv(s, t);
    }
    forall w: nat | w < |s.locks| ensures s.locks[w].None? {
      assert Free(s, w);
    }
  }

  lemma SomebodyWaits(s: System) returns (k: nat)
    requires Inv(s) && !Quiet(s) && forall t :: 0 <= t < |s.threads| ==> !s.threads[t].mode.Entering?
    requires forall w: nat :: w < |s.locks| ==> Free(s, w)
    ensures Is(s, k) && !s.signallers[k].Idle?
  {
    if forall k :: 0 <= k < |s.signallers| ==> s.signallers[k].Idle? {
      IdleIsQuiet(s);
    }
    k :| k < |s.signallers| && !s.signallers[k].Idle?;
  }

  /** A run can stop, with nothing left to do but new requests, exactly when it is quiet or has failed. */
  lemma RestsExactly(s: System)
    requires Inv(s)
    ensures Rests(s) <==> s.crashed || Quiet(s)
  {
    if !s.crashed && !Quiet(s) {
      var a := SomethingGoesOn(s);
    }
  }

  /** Thread t is in no wait and stands on no queue. */
  ghost predicate Returned(s: System, t: nat)
  {
    && t < |s.threads| && s.threads[t].mode.Awake?
    && forall slot: nat, w: nat :: !OnQueue(s, t, slot, w)
  }

  lemma QuietReturns(r: System, t: nat)
    requires Inv(r) && r.termination.Finished? && Quiet(r) && t < |r.threads| && r.threads[t].guarded
    ensures Returned(r, t)
  {
  }

  /** So every `wait_until` ends: after the flag is set and signalled, a run that goes on for as long as it
      can, and does not fail, leaves no such waiter blocked and none of its nodes on any queue. */
  lemma WaitUntilEnds(s: System, run: seq<Step>, r: System, t: nat)
    requires Initial(s) && IsRun(s, run) && r == Exec(s, run)
    requires r.termination.Finished? && Rests(r) && !r.crashed && t < |r.threads| && r.threads[t].guarded
    ensures Returned(r, t)
  {
    InitialInv(s);
    KeepRun(s, run);
    RestsExactly(r);
    QuietReturns(r, t);
  }
}
