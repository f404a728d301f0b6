/** `Thread::join`, a `wait_until` on the termination flag, against `terminate`, which sets
    the flag and then signals all: any number of joiners and one terminating thread, one
    step per atomic access or critical section action. A joiner waits on that one waitable, and
    `terminate` is its one signaller; module Signals has waits on several waitables. */
module Join {
  import opened Options

  datatype Phase =
    | Entering                    // before the check without the lock
    | Locking
    | Checking                    // holds the lock from here
    | Enqueueing
    | LeavingDone
    | LeavingBlocked              // to here
    | Asleep
    | Returned

  /** `signal_all`: lock, pick and unlock; win the group; lock, unlink and unlock; make ready. */
  datatype Signaller =
    | NotYet
    | Scanning
    | Picking                     // holds the lock
    | Winning(j: nat)
    | Tearing(j: nat)
    | Unlinking(j: nat)           // holds the lock
    | Readying(j: nat)
    | Finished

  datatype Holder = Joiner(j: nat) | Terminator

  datatype System = System(
    flag: bool,
    lock: Option<Holder>,
    queue: set<nat>,              // joiners with a node on the waitable; module Waiting has the order
    won: set<nat>,                // joiners whose wait group is done
    joiners: seq<Phase>,
    signaller: Signaller,
    crashed: bool                 // an assertion of wake_thread failed
  )

  datatype Step =
    | FastCheck(j: nat)
    | Lock(j: nat)
    | Check(j: nat)
    | Enqueue(j: nat)
    | Unlock(j: nat)
    | SetFlag
    | SignalLock
    | Pick(j: nat)
    | PickNone
    | Win
    | Unlink
    | MakeReady

  predicate HoldsLock(p: Phase)
  {
    p in {Checking, Enqueueing, LeavingDone, LeavingBlocked}
  }

  ghost predicate IsJoiner(s: System, j: nat)
  {
    j < |s.joiners|
  }

  ghost predicate Enabled(s: System, a: Step)
  {
    && !s.crashed
    && match a
       case FastCheck(j) => IsJoiner(s, j) && s.joiners[j].Entering?
       case Lock(j) => IsJoiner(s, j) && s.joiners[j].Locking? && s.lock.None?
       case Check(j) => IsJoiner(s, j) && s.joiners[j].Checking?
       case Enqueue(j) => IsJoiner(s, j) && s.joiners[j].Enqueueing?
       case Unlock(j) => IsJoiner(s, j) && (s.joiners[j].LeavingDone? || s.joiners[j].LeavingBlocked?)
       case SetFlag => s.signaller.NotYet?
       case SignalLock => (s.signaller.Scanning? || s.signaller.Tearing?) && s.lock.None?
       case Pick(j) => s.signaller.Picking? && j in s.queue && j !in s.won
       case PickNone => s.signaller.Picking? && forall j :: j in s.queue ==> j in s.won
       case Win => s.signaller.Winning?
       case Unlink => s.signaller.Unlinking?
       case MakeReady => s.signaller.Readying? && IsJoiner(s, s.signaller.j)
  }

  ghost function Move(s: System, j: nat, p: Phase): System
    requires IsJoiner(s, j)
  {
    s.(joiners := s.joiners[j := p])
  }

  ghost function Next(s: System, a: Step): System
    requires Enabled(s, a)
  {
    match a
    case FastCheck(j) => Move(s, j, if s.flag then Returned else Locking)
    case Lock(j) => Move(s, j, Checking).(lock := Some(Joiner(j)))
    case Check(j) => Move(s, j, if s.flag then LeavingDone else Enqueueing)
    case Enqueue(j) => Move(s, j, LeavingBlocked).(queue := s.queue + {j}, won := s.won - {j})
    case Unlock(j) => Move(s, j, if s.joiners[j].LeavingDone? then Returned else Asleep).(lock := None)
    case SetFlag => s.(flag := true, signaller := Scanning)
    case SignalLock =>
      s.(lock := Some(Terminator), signaller := if s.signaller.Scanning? then Picking else Unlinking(s.signaller.j))
    case Pick(j) => s.(lock := None, signaller := Winning(j))
    case PickNone => s.(lock := None, signaller := Finished)
    case Win =>
      var j := s.signaller.j;
      if !(IsJoiner(s, j) && s.joiners[j].Asleep? && j in s.queue) then s.(crashed := true)     // asserted
      else if j in s.won then s.(signaller := Scanning)                   // lost
      else s.(won := s.won + {j}, signaller := Tearing(j))
    case Unlink =>
      s.(lock := None, queue := s.queue - {s.signaller.j}, signaller := Readying(s.signaller.j))
    case MakeReady => Move(s, s.signaller.j, Locking).(signaller := Scanning)
  }

  ghost predicate IsRun(s: System, run: seq<Step>)
    decreases |run|
  {
    run != [] ==> Enabled(s, run[0]) && IsRun(Next(s, run[0]), run[1..])
  }

  ghost function Exec(s: System, run: seq<Step>): System
    requires IsRun(s, run)
    decreases |run|
  {
    if run == [] then s else Exec(Next(s, run[0]), run[1..])
  }

  ghost predicate Initial(s: System)
  {
    && !s.flag && s.lock == None && s.queue == {} && s.won == {} && s.signaller == NotYet && !s.crashed
    && forall j :: 0 <= j < |s.joiners| ==> s.joiners[j].Entering?
  }

  // ------------------------------------------------------------------ invariant

  ghost predicate LockInv(s: System)
  {
    && (forall j: nat :: s.lock == Some(Joiner(j)) ==> j < |s.joiners|)
    && (forall j :: 0 <= j < |s.joiners| ==> (HoldsLock(s.joiners[j]) <==> s.lock == Some(Joiner(j))))
    && ((s.signaller.Picking? || s.signaller.Unlinking?) <==> s.lock == Some(Terminator))
  }

  ghost predicate JoinerInv(s: System, j: nat)
    requires IsJoiner(s, j)
  {
    var p := s.joiners[j];
    && (j in s.queue ==> p.LeavingBlocked? || p.Asleep?)
    && (p.LeavingBlocked? || p.Asleep? ==> j in s.queue || s.signaller == Readying(j))
    && (j in s.queue && j in s.won ==> s.signaller == Tearing(j) || s.signaller == Unlinking(j))
    && (p.Returned? || p.LeavingDone? ==> s.flag)
    && (s.signaller.Finished? ==> p !in {Enqueueing, LeavingBlocked, Asleep})
  }

  ghost predicate SignallerInv(s: System)
  {
    && (s.signaller.NotYet? <==> !s.flag) && !s.crashed
    && match s.signaller
       case Winning(j) => IsJoiner(s, j) && s.joiners[j].Asleep? && j in s.queue && j !in s.won
       case Tearing(j) => IsJoiner(s, j) && s.joiners[j].Asleep? && j in s.queue && j in s.won
       case Unlinking(j) => IsJoiner(s, j) && s.joiners[j].Asleep? && j in s.queue && j in s.won
       case Readying(j) => IsJoiner(s, j) && s.joiners[j].Asleep? && j !in s.queue
       case _ => true
  }

  ghost predicate Inv(s: System)
  {
    && LockInv(s) && SignallerInv(s)
    && (forall j :: j in s.queue ==> j < |s.joiners|)
    && (forall j :: 0 <= j < |s.joiners| ==> JoinerInv(s, j))
  }

  lemma KeepLock(s: System, a: Step)
    requires Inv(s) && Enabled(s, a)
    ensures LockInv(Next(s, a))
  {
    hide JoinerInv;
  }

  lemma KeepSignaller(s: System, a: Step)
    requires Inv(s) && Enabled(s, a)
    ensures SignallerInv(Next(s, a))
  {
    if a.Pick? { assert JoinerInv(s, a.j); }
    if !s.signaller.NotYet? && !s.signaller.Scanning? && !s.signaller.Picking? && !s.signaller.Finished? {
      assert JoinerInv(s, s.signaller.j);
    }
    hide JoinerInv;
  }

  lemma KeepJoiner(s: System, a: Step, j: nat)
    requires Inv(s) && Enabled(s, a) && IsJoiner(s, j)
    ensures IsJoiner(Next(s, a), j) && JoinerInv(Next(s, a), j)
  {
    assert JoinerInv(s, j);
  }

  lemma Keep(s: System, a: Step)
    requires Inv(s) && Enabled(s, a)
    ensures Inv(Next(s, a)) && |Next(s, a).joiners| == |s.joiners|
  {
    var r := Next(s, a);
    KeepLock(s, a);
    KeepSignaller(s, a);
    hide LockInv, SignallerInv, JoinerInv;
    forall j | 0 <= j < |r.joiners| ensures JoinerInv(r, j) {
      KeepJoiner(s, a, j);
    }
  }

  lemma {:induction false} KeepRun(s: System, run: seq<Step>)
    requires Inv(s) && IsRun(s, run)
    ensures Inv(Exec(s, run)) && |Exec(s, run).joiners| == |s.joiners|
    decreases |run|
  {
    if run != [] {
      Keep(s, run[0]);
      hide Inv, Enabled, Next;
      KeepRun(Next(s, run[0]), run[1..]);
    }
  }

  ghost predicate OnQueue(s: System, j: nat)
    requires IsJoiner(s, j)
  {
    j in s.queue || s.joiners[j] in {Enqueueing, LeavingBlocked, Asleep}
  }

  /** In every state of every run: no assertion has failed, a join has returned only if termination was
      flagged, and once `terminate` has finished no joiner is blocked, enqueued or going to be. */
  lemma NoJoinMissed(s0: System, run: seq<Step>, j: nat)
    requires Initial(s0) && IsRun(s0, run) && IsJoiner(s0, j)
    ensures var s := Exec(s0, run);
      && |s.joiners| == |s0.joiners| && !s.crashed
      && (s.joiners[j].Returned? ==> s.flag)
      && (s.signaller.Finished? ==> !OnQueue(s, j))
  {
    KeepRun(s0, run);
    assert JoinerInv(Exec(s0, run), j);
  }

  /** Some check of joiner j in the run finds the flag set. */
  ghost predicate SawFlag(s: System, run: seq<Step>, j: nat)
    requires IsRun(s, run)
    decreases |run|
  {
    run != [] && ((s.flag && run[0] in {FastCheck(j), Check(j)}) || SawFlag(Next(s, run[0]), run[1..], j))
  }

  lemma {:induction false} LeavesByCheck(s: System, run: seq<Step>, j: nat)
    requires IsRun(s, run) && IsJoiner(s, j) && IsJoiner(Exec(s, run), j)
    ensures Exec(s, run).joiners[j] in {LeavingDone, Returned} ==>
      s.joiners[j] in {LeavingDone, Returned} || SawFlag(s, run, j)
    decreases |run|
  {
    if run != [] {
      LeavesByCheck(Next(s, run[0]), run[1..], j);
    }
  }

  /** Being woken is not enough: every join that has returned has itself looked and found the flag set. */
  lemma ReturnsByCheck(s0: System, run: seq<Step>, j: nat)
    requires Initial(s0) && IsRun(s0, run) && IsJoiner(s0, j)
    ensures |Exec(s0, run).joiners| == |s0.joiners|
    ensures Exec(s0, run).joiners[j].Returned? ==> SawFlag(s0, run, j)
  {
    KeepRun(s0, run);
    LeavesByCheck(s0, run, j);
  }

  /** Nor is any joiner blocked later on. */
  lemma NeverAgain(s0: System, run: seq<Step>, more: seq<Step>, j: nat)
    requires Initial(s0) && IsRun(s0, run) && IsJoiner(s0, j)
    requires Exec(s0, run).signaller.Finished? && IsRun(Exec(s0, run), more)
    ensures |Exec(Exec(s0, run), more).joiners| == |s0.joiners| && !OnQueue(Exec(Exec(s0, run), more), j)
  {
    KeepRun(s0, run);
    KeepRun(Exec(s0, run), more);
    StaysFinished(Exec(s0, run), more);
    assert JoinerInv(Exec(Exec(s0, run), more), j);
  }

  lemma {:induction false} StaysFinished(s: System, run: seq<Step>)
    requires IsRun(s, run) && s.signaller.Finished?
    ensures Exec(s, run).signaller.Finished?
    decreases |run|
  {
    if run != [] { StaysFinished(Next(s, run[0]), run[1..]); }
  }

  // ----------------------------------------------------------------- completion

  /** Bounds the steps a joiner has left once the flag is set. A sleeper that no signaller has picked
      yet also pays for the round of `signal_all` that will wake it. */
  ghost function Rank(s: System, j: nat): nat
    requires IsJoiner(s, j)
  {
    match s.joiners[j]
    case Returned => 0
    case LeavingDone => 1
    case Checking => 2
    case Locking => 3
    case Entering => 4
    case Asleep => if Picked(s, j) then 4 else 12
    case LeavingBlocked => 13
    case Enqueueing => 14
  }

  ghost predicate Picked(s: System, j: nat)
  {
    s.signaller in {Winning(j), Tearing(j), Unlinking(j), Readying(j)}
  }

  ghost function SignallerRank(p: Signaller): nat
  {
    match p
    case NotYet => 3
    case Scanning => 2
    case Picking => 1
    case Finished => 0
    case Winning(_) => 7
    case Tearing(_) => 6
    case Unlinking(_) => 5
    case Readying(_) => 4
  }

  ghost function RankSum(s: System, n: nat): nat
    requires n <= |s.joiners|
  {
    if n == 0 then 0 else RankSum(s, n - 1) + Rank(s, n - 1)
  }

  ghost function Work(s: System): nat
  {
    RankSum(s, |s.joiners|) + SignallerRank(s.signaller)
  }

  /** All ranks but that of j are the same. */
  lemma {:induction false} SumOfOne(s: System, r: System, j: nat, n: nat)
    requires |s.joiners| == |r.joiners| && n <= |s.joiners| && j < |s.joiners|
    requires forall k :: 0 <= k < |s.joiners| && k != j ==> Rank(r, k) == Rank(s, k)
    ensures RankSum(r, n) - RankSum(s, n) == if j < n then Rank(r, j) - Rank(s, j) else 0
  {
    if n > 0 { SumOfOne(s, r, j, n - 1); }
  }

  lemma {:induction false} SumSame(s: System, r: System, n: nat)
    requires |s.joiners| == |r.joiners| && n <= |s.joiners|
    requires forall k :: 0 <= k < |s.joiners| ==> Rank(r, k) == Rank(s, k)
    ensures RankSum(r, n) == RankSum(s, n)
  {
    if n > 0 { SumSame(s, r, n - 1); }
  }

  lemma WorkOfOne(s: System, r: System, j: nat)
    requires |s.joiners| == |r.joiners| && j < |s.joiners|
    requires forall k :: 0 <= k < |s.joiners| && k != j ==> Rank(r, k) == Rank(s, k)
    requires Rank(r, j) + SignallerRank(r.signaller) < Rank(s, j) + SignallerRank(s.signaller)
    ensures Work(r) < Work(s)
  {
    SumOfOne(s, r, j, |s.joiners|);
  }

  lemma WorkOfSignaller(s: System, r: System)
    requires |s.joiners| == |r.joiners|
    requires forall k :: 0 <= k < |s.joiners| ==> Rank(r, k) == Rank(s, k)
    requires SignallerRank(r.signaller) < SignallerRank(s.signaller)
    ensures Work(r) < Work(s)
  {
    SumSame(s, r, |s.joiners|);
  }

  predicate OfJoiner(a: Step)
  {
    a.FastCheck? || a.Lock? || a.Check? || a.Enqueue? || a.Unlock?
  }

  lemma JoinerWorks(s: System, a: Step)
    requires Inv(s) && Enabled(s, a) && s.flag && OfJoiner(a)
    ensures Next(s, a).flag && Work(Next(s, a)) < Work(s)
  {
    hide Work, LockInv, SignallerInv;
    assert JoinerInv(s, a.j);
    WorkOfOne(s, Next(s, a), a.j);
  }

  lemma SignallerWorks(s: System, a: Step)
    requires Inv(s) && Enabled(s, a) && s.flag && !OfJoiner(a)
    ensures Next(s, a).flag && Work(Next(s, a)) < Work(s)
  {
    var r := Next(s, a);
    hide Work, LockInv;
    match a
    case Pick(j) =>
      assert JoinerInv(s, j);
      WorkOfOne(s, r, j);
    case MakeReady => WorkOfOne(s, r, s.signaller.j);
    case _ => WorkOfSignaller(s, r);
  }

  lemma StepsWork(s: System, a: Step)
    requires Inv(s) && Enabled(s, a) && s.flag
    ensures Next(s, a).flag && Work(Next(s, a)) < Work(s)
  {
    if OfJoiner(a) { JoinerWorks(s, a); } else { SignallerWorks(s, a); }
  }

  ghost predicate AllReturned(s: System)
  {
    s.signaller.Finished? && forall j :: 0 <= j < |s.joiners| ==> s.joiners[j].Returned?
  }

  ghost predicate Stuck(s: System)
  {
    forall a :: !Enabled(s, a)
  }

  /** Whoever holds the lock can always go on; with the lock free, somebody can. */
  lemma StuckExactly(s: System)
    requires Inv(s) && s.flag
    ensures Stuck(s) <==> AllReturned(s)
  {
    if !AllReturned(s) {
      var a := SomeStep(s);
    }
  }

  lemma SomeStep(s: System) returns (a: Step)
    requires Inv(s) && s.flag && !AllReturned(s)
    ensures Enabled(s, a)
  {
    match s.lock
    case Some(Joiner(j)) =>
      assert HoldsLock(s.joiners[j]);
      a := match s.joiners[j]
        case Checking => Check(j)
        case Enqueueing => Enqueue(j)
        case _ => Unlock(j);
    case Some(Terminator) =>
      if s.signaller.Unlinking? {
        a := Unlink;
      } else if j :| j in s.queue && j !in s.won {
        a := Pick(j);
      } else {
        a := PickNone;
      }
    case None =>
      if !s.signaller.Finished? {
        a := if s.signaller.Winning? then Win else if s.signaller.Readying? then MakeReady else SignalLock;
      } else {
        var j :| 0 <= j < |s.joiners| && !s.joiners[j].Returned?;
        assert JoinerInv(s, j);
        a := if s.joiners[j].Entering? then FastCheck(j) else Lock(j);
      }
  }

  /** Once termination is flagged, every interleaving finishes within a bound, and it can stop only
      when `terminate` has finished and every join has returned. */
  lemma {:induction false} AllJoinsReturn(s: System, run: seq<Step>)
    requires Inv(s) && s.flag && IsRun(s, run)
    ensures |run| <= Work(s)
    ensures Stuck(Exec(s, run)) <==> AllReturned(Exec(s, run))
    decreases |run|
  {
    if run == [] {
      StuckExactly(s);
    } else {
      StepsWork(s, run[0]);
      Keep(s, run[0]);
      hide Inv, Enabled, Next, Stuck, AllReturned, Work;
      AllJoinsReturn(Next(s, run[0]), run[1..]);
    }
  }

  /** From the start: after any run in which the flag has been set, the same. */
  lemma JoinTerminates(s0: System, run: seq<Step>, more: seq<Step>)
    requires Initial(s0) && IsRun(s0, run) && Exec(s0, run).flag && IsRun(Exec(s0, run), more)
    ensures |more| <= Work(Exec(s0, run)) <= 14 * |s0.joiners| + 7
    ensures Stuck(Exec(Exec(s0, run), more)) <==> AllReturned(Exec(Exec(s0, run), more))
  {
    KeepRun(s0, run);
    AllJoinsReturn(Exec(s0, run), more);
    SumBound(Exec(s0, run), |s0.joiners|);
  }

  lemma {:induction false} SumBound(s: System, n: nat)
    requires n <= |s.joiners|
    ensures RankSum(s, n) <= 14 * n
  {
    if n > 0 { SumBound(s, n - 1); }
  }
}
