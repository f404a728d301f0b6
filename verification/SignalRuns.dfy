/** Two runs in which a signaller wakes after the node it picked has been freed: in one an assertion
    fails, in the other a wait is won on a waitable that nobody has ever signalled. */
module SignalRuns {
  import opened Options
  import opened PriorityFifo
  import opened Signals
  import opened SignalInvariant

  // -------------------------------------------------------------------- runs

  ghost predicate Reaches(s: System, run: seq<Step>, r: System)
  {
    Shaped(s) && IsRun(s, run) && r == Exec(s, run)
  }

  lemma OneStep(s: System, a: Step, r: System)
    requires Shaped(s) && Enabled(s, a) && r == Next(s, a)
    ensures Reaches(s, [a], r)
  {
    NextShaped(s, a);
    hide Enabled, Next, Shaped;
    assert [a][1..] == [];
    assert IsRun(r, []) && Exec(r, []) == r;
  }

  lemma {:induction false} Then(s: System, first: seq<Step>, r: System, second: seq<Step>, q: System)
    requires Reaches(s, first, r) && Reaches(r, second, q)
    ensures Reaches(s, first + second, q)
    decreases |first|
  {
    hide Enabled, Next, Shaped;
    if first == [] {
      assert first + second == second;
    } else {
      NextShaped(s, first[0]);
      Then(Next(s, first[0]), first[1..], r, second, q);
      assert (first + second)[0] == first[0] && (first + second)[1..] == first[1..] + second;
    }
  }

  // ---------------------------------------------- one thread, two waitables, two signallers

  ghost function Small(th: Thread, one: Signaller, two: Signaller, lock: Option<Holder>, other: Option<Holder>): System
  {
    System(1, [th], [one, two], [lock, other], 0, false, NotYet, false)
  }

  /** A thread with one node, in its wait number `wait`, on w alone. */
  ghost function Up(done: bool, winner: Option<nat>, wait: nat): Thread
  {
    Thread(Awake, [None], done, winner, false, wait)
  }

  ghost function In(w: nat, added: nat, nodes: seq<Option<Node>>, wait: nat): Thread
  {
    Thread(Entering([w], added), nodes, false, None, false, wait)
  }

  ghost function Down(w: nat, nodes: seq<Option<Node>>, done: bool, winner: Option<nat>, wait: nat): Thread
  {
    Thread(Blocked([w]), nodes, done, winner, false, wait)
  }

  const PICKED := Waking(0, false, 0, 0, 1)
  const ON_ZERO := [Some(Node(0, 0))]
  const ON_ONE := [Some(Node(1, 0))]

  /** Step i of the run: the thread blocks on waitable 0, both signallers pick it, the second wakes it, and
      it blocks on waitable 1 before the first goes on. */
  ghost function Act(i: nat): Step
  {
    match i
    case 0 => Begin(0, [0], false)
    case 1 => Enter(0)
    case 2 => Block(0)
    case 3 => Start(0, 0, false)
    case 4 => Lock(0)
    case 5 => Pick(0, 0, 0)
    case 6 => Start(1, 0, false)
    case 7 => Lock(1)
    case 8 => Pick(1, 0, 0)
    case 9 => Wake(1)
    case 10 => LockGroup(1)
    case 11 => Unlink(1)
    case 12 => Unlink(1)
    case 13 => Ready(1)
    case 14 => Begin(0, [1], false)
    case 15 => Enter(0)
    case 16 => Block(0)
    case _ => Wake(0)
  }

  ghost function Stage(i: nat): System
  {
    match i
    case 0 => Small(Up(false, None, 0), Idle, Idle, None, None)
    case 1 => Small(In(0, 0, [None], 1), Idle, Idle, Some(ByThread(0)), None)
    case 2 => Small(In(0, 1, ON_ZERO, 1), Idle, Idle, Some(ByThread(0)), None)
    case 3 => Small(Down(0, ON_ZERO, false, None, 1), Idle, Idle, None, None)
    case 4 => Small(Down(0, ON_ZERO, false, None, 1), Scanning(0, false), Idle, None, None)
    case 5 => Small(Down(0, ON_ZERO, false, None, 1), Picking(0, false), Idle, Some(BySignaller(0)), None)
    case 6 => Small(Down(0, ON_ZERO, false, None, 1), PICKED, Idle, None, None)
    case 7 => Small(Down(0, ON_ZERO, false, None, 1), PICKED, Scanning(0, false), None, None)
    case 8 => Small(Down(0, ON_ZERO, false, None, 1), PICKED, Picking(0, false), Some(BySignaller(1)), None)
    case 9 => Small(Down(0, ON_ZERO, false, None, 1), PICKED, PICKED, None, None)
    case 10 => Small(Down(0, ON_ZERO, true, Some(0), 1), PICKED, Tearing(0, false, 0), None, None)
    case 11 => Small(Down(0, ON_ZERO, true, Some(0), 1), PICKED, Unlinking(0, false, 0), Some(BySignaller(1)), None)
    case 12 => Small(Down(0, [None], true, Some(0), 1), PICKED, Unlinking(0, false, 0), Some(BySignaller(1)), None)
    case 13 => Small(Down(0, [None], true, Some(0), 1), PICKED, Readying(0, false, 0), None, None)
    case 14 => Small(Up(true, Some(0), 1), PICKED, Idle, None, None)
    case 15 => Small(In(1, 0, [None], 2), PICKED, Idle, None, Some(ByThread(0)))
    case 16 => Small(In(1, 1, ON_ONE, 2), PICKED, Idle, None, Some(ByThread(0)))
    case _ => Small(Down(1, ON_ONE, false, None, 2), PICKED, Idle, None, None)
  }

  ghost predicate Goes(i: nat)
  {
    Shaped(Stage(i)) && Enabled(Stage(i), Act(i)) && Next(Stage(i), Act(i)) == Stage(i + 1)
  }

  lemma Begins()
    ensures Goes(0)
  {
  }

  lemma Enters()
    ensures Goes(1)
  {
    assert LowestFree(Stage(1).threads[0].nodes) == 0;
    assert [None][0 := Some(Node(0, 0))] == ON_ZERO;
  }

  lemma Blocks()
    ensures Goes(2)
  {
  }

  lemma FirstStarts()
    ensures Goes(3)
  {
  }

  lemma FirstLocks()
    ensures Goes(4)
  {
  }

  lemma FirstPicks()
    ensures Goes(5)
  {
  }

  lemma SecondStarts()
    ensures Goes(6)
  {
  }

  lemma SecondLocks()
    ensures Goes(7)
  {
  }

  lemma SecondPicks()
    ensures Goes(8)
  {
  }

  lemma SecondWins()
    ensures Goes(9)
  {
  }

  lemma SecondLocksGroup()
    ensures Goes(10)
  {
  }

  lemma SecondFrees()
    ensures Goes(11)
  {
    assert LowestUsed(Stage(11).threads[0].nodes) == 0;
    assert ON_ZERO[0 := None] == [None];
  }

  lemma SecondUnlocks()
    ensures Goes(12)
  {
  }

  lemma SecondReadies()
    ensures Goes(13)
  {
  }

  lemma BeginsAgain()
    ensures Goes(14)
  {
  }

  lemma EntersAgain()
    ensures Goes(15)
  {
    assert LowestFree(Stage(15).threads[0].nodes) == 0;
    assert [None][0 := Some(Node(1, 0))] == ON_ONE;
  }

  lemma BlocksAgain()
    ensures Goes(16)
  {
  }

  lemma EveryStageGoes(i: nat)
    requires i < 17
    ensures Goes(i)
  {
    hide *;
    Begins();
    Enters();
    Blocks();
    FirstStarts();
    FirstLocks();
    FirstPicks();
    SecondStarts();
    SecondLocks();
    SecondPicks();
    SecondWins();
    SecondLocksGroup();
    SecondFrees();
    SecondUnlocks();
    SecondReadies();
    BeginsAgain();
    EntersAgain();
    BlocksAgain();
  }

  ghost function Acts(n: nat): seq<Step>
  {
    seq(n, i requires 0 <= i < n => Act(i))
  }

  lemma {:induction false} RunTo(n: nat)
    requires n <= 17
    ensures Reaches(Stage(0), Acts(n), Stage(n))
  {
    if n == 0 {
      EveryStageGoes(0);
    } else {
      RunTo(n - 1);
      EveryStageGoes(n - 1);
      assert Acts(n) == Acts(n - 1) + [Act(n - 1)];
      hide Stage, Act, Acts, Shaped, Enabled, Next, IsRun, Exec;
      OneStep(Stage(n - 1), Act(n - 1), Stage(n));
      Then(Stage(0), Acts(n - 1), Stage(n - 1), [Act(n - 1)], Stage(n));
    }
  }

  // ------------------------------------------------------------ what goes wrong

  /** No signal in the run is for waitable w. */
  ghost predicate NeverSignalled(run: seq<Step>, w: nat)
  {
    forall i :: 0 <= i < |run| ==> !run[i].Terminate? && (run[i].Start? ==> run[i].w != w)
  }

  lemma FailsNow(r: System)
    requires r == Stage(12).(crashed := true)
    ensures Reaches(Stage(12), [Wake(0)], r)
  {
    OneStep(Stage(12), Wake(0), r);
  }

  /** The first signaller goes on when the second has freed the node: an assertion of `wake_thread` fails. */
  lemma WakeCanFail() returns (run: seq<Step>, r: System)
    ensures Initial(Stage(0)) && Reaches(Stage(0), run, r) && r.crashed
  {
    r := Stage(12).(crashed := true);
    run := Acts(12) + [Wake(0)];
    Starts();
    RunTo(12);
    FailsNow(r);
    hide *;
    Then(Stage(0), Acts(12), Stage(12), [Wake(0)], r);
  }

  lemma Starts()
    ensures Initial(Stage(0))
  {
  }

  ghost function Stolen(): System
  {
    Small(Down(1, ON_ONE, true, Some(0), 2), Tearing(0, false, 0), Idle, None, None)
  }

  lemma WinsNow()
    ensures Reaches(Stage(17), [Wake(0)], Stolen())
  {
    OneStep(Stage(17), Wake(0), Stolen());
  }

  /** The thread has been woken from its second wait, which is on waitable 1, as if by waitable 1. */
  ghost predicate WokenByOne(r: System)
  {
    && !r.crashed && |r.threads| == 1 && |r.signallers| == 2 && r.signallers[0].Tearing?
    && var th := r.threads[0];
       th.wait == 2 && th.mode == Blocked([1]) && th.done && th.winner == Some(0)
  }

  /** It goes on when the thread has blocked again with the same node: the thread is woken from its second
      wait, and told that waitable 1 was signalled, which it never was. */
  lemma WakeCanWinAnotherWait() returns (run: seq<Step>, r: System)
    ensures Initial(Stage(0)) && Reaches(Stage(0), run, r) && WokenByOne(r) && NeverSignalled(run, 1)
  {
    r := Stolen();
    run := Acts(17) + [Wake(0)];
    assert WokenByOne(r);
    assert NeverSignalled(run, 1);
    Starts();
    RunTo(17);
    WinsNow();
    hide *;
    Then(Stage(0), Acts(17), Stage(17), [Wake(0)], r);
  }
}
