/** Where every thread is, over every run of the whole kernel: registration,
    start, blocking, waking from any core, termination and `reschedule`, on any
    number of cores. Ready queues are those of module PriorityFifo and an inbox is
    a queue of bounded length (module Ring); a drain may stop early, so it takes
    any prefix. */
module KernelRuns {
  import opened Config
  import opened Options
  import opened PriorityFifo

  datatype State = Unregistered | Ready | Running | Blocked | Terminated

  /** `current` is None while the core has not started or runs its idle thread. */
  datatype Core = Core(started: bool, current: Option<nat>, queues: Queues<nat>, inbox: seq<nat>)

  datatype Kernel = Kernel(
    priority: seq<nat>,        // fixed per thread
    pinned: seq<nat>,          // fixed per thread
    state: seq<State>,
    waiting: seq<bool>,        // blocked on a wait group no signal has won
    cores: seq<Core>,
    running: bool,
    crashed: bool              // an assertion failed or an unreachable arm was reached
  )

  datatype Step =
    | Register(t: nat, from: nat)
    | Start
    | StartCore(c: nat)
    | Block(c: nat)
    | Terminate(c: nat)
    | Wake(t: nat, from: nat)
    | Reschedule(c: nat, drained: nat)

  // ------------------------------------------------------------------- steps

  /** Every name in a core denotes one of the threads, and every priority has a row. */
  ghost predicate CoreSound(priority: seq<nat>, core: Core)
  {
    && (forall t :: 0 <= t < |priority| ==> priority[t] < |core.queues|)
    && (forall t :: t in core.inbox ==> t < |priority|)
    && (forall t :: core.current == Some(t) ==> t < |priority|)
    && (forall p, t :: 0 <= p < |core.queues| && t in core.queues[p] ==> t < |priority|)
  }

  ghost predicate Sound(s: Kernel)
  {
    && |s.pinned| == |s.priority| == |s.state| == |s.waiting|
    && (forall t :: 0 <= t < |s.pinned| ==> s.pinned[t] < |s.cores|)
    && (forall c :: 0 <= c < |s.cores| ==> CoreSound(s.priority, s.cores[c]))
  }

  ghost predicate SameThreads(s: Kernel, r: Kernel)
  {
    r.pinned == s.pinned && r.priority == s.priority && |r.cores| == |s.cores| && |r.state| == |s.state|
  }

  ghost predicate IsThread(s: Kernel, t: nat)
  {
    t < |s.state|
  }

  ghost function SetCore(s: Kernel, c: nat, core: Core): Kernel
    requires c < |s.cores|
  {
    s.(cores := s.cores[c := core])
  }

  ghost function SetState(s: Kernel, t: nat, st: State): Kernel
    requires t < |s.state|
  {
    s.(state := s.state[t := st])
  }

  ghost function Crash(s: Kernel): Kernel
  {
    s.(crashed := true)
  }

  /** `Scheduler::set_thread_ready`, run by the scheduler of core c. */
  ghost function MakeReady(s: Kernel, c: nat, t: nat): (r: Kernel)
    requires Sound(s) && IsThread(s, t) && c < |s.cores|
    ensures Sound(r) && SameThreads(s, r) && r.cores[c].inbox == s.cores[c].inbox
  {
    if s.pinned[t] != c then Crash(s) else
      var core := s.cores[c];
      SetState(SetCore(s, c, core.(queues := Enqueue(core.queues, s.priority[t], t))), t, Ready)
  }

  /** `post_to_inbox`, and the assertion on its result. */
  ghost function Post(s: Kernel, t: nat): (r: Kernel)
    requires Sound(s) && IsThread(s, t)
    ensures Sound(r) && SameThreads(s, r)
  {
    var c := s.pinned[t];
    if |s.cores[c].inbox| >= INBOX_CAP then Crash(s)
    else SetCore(s, c, s.cores[c].(inbox := s.cores[c].inbox + [t]))
  }

  /** `Kernel::set_thread_ready`, called on core `from`. */
  ghost function ReadyFrom(s: Kernel, t: nat, from: nat): (r: Kernel)
    requires Sound(s) && IsThread(s, t)
    ensures Sound(r) && SameThreads(s, r)
  {
    if s.state[t].Terminated? then Crash(s)
    else if !s.running || from == s.pinned[t] then MakeReady(s, s.pinned[t], t)
    else Post(s, t)
  }

  /** One round of the pop loop of `drain_inbox`. */
  ghost function DrainOne(s: Kernel, c: nat): (r: Kernel)
    requires Sound(s) && c < |s.cores| && s.cores[c].inbox != []
    ensures Sound(r) && SameThreads(s, r)
    ensures r.cores[c].inbox == s.cores[c].inbox[1..]
  {
    var t := s.cores[c].inbox[0];
    var rest := s.cores[c].(inbox := s.cores[c].inbox[1..]);
    assert t in s.cores[c].inbox && forall u :: u in rest.inbox ==> u in s.cores[c].inbox;
    MakeReady(SetCore(s, c, rest), c, t)
  }

  ghost function Drain(s: Kernel, c: nat, k: nat): (r: Kernel)
    requires Sound(s) && c < |s.cores| && k <= |s.cores[c].inbox|
    ensures Sound(r) && SameThreads(s, r)
    decreases k
  {
    if k == 0 then s else Drain(DrainOne(s, c), c, k - 1)
  }

  /** The best ready thread becomes current and Running, or idle does if there is none. */
  ghost function Select(s: Kernel, c: nat): (r: Kernel)
    requires Sound(s) && c < |s.cores|
    ensures Sound(r) && SameThreads(s, r)
  {
    var queues := s.cores[c].queues;
    var (best, rest) := PopBest(queues);
    var s1 := SetCore(s, c, s.cores[c].(started := true, current := best, queues := rest));
    assert best.Some? ==> best.value in queues[Best(queues)];
    assert forall p, t :: 0 <= p < |rest| && t in rest[p] ==> t in queues[p];
    if best.Some? then SetState(s1, best.value, Running) else s1
  }

  /** `Scheduler::start`, with its assertion on the first thread's state. */
  ghost function Begin(s: Kernel, c: nat): (r: Kernel)
    requires Sound(s) && c < |s.cores|
    ensures Sound(r) && SameThreads(s, r)
  {
    var best := PopBest(s.cores[c].queues).0;
    assert best.Some? ==> best.value in s.cores[c].queues[Best(s.cores[c].queues)];
    if best.Some? && !s.state[best.value].Ready? then Crash(s) else Select(s, c)
  }

  /** The thread that was current is kept aside as the previous one. */
  ghost function Leave(s: Kernel, c: nat): (r: Kernel)
    requires Sound(s) && c < |s.cores|
    ensures Sound(r) && SameThreads(s, r)
  {
    SetCore(s, c, s.cores[c].(current := None))
  }

  /** `reschedule` after the drain: rotate the previous thread, then select. */
  ghost function Switch(s: Kernel, c: nat): (r: Kernel)
    requires Sound(s) && c < |s.cores|
    ensures Sound(r) && SameThreads(s, r)
  {
    match s.cores[c].current
    case None => Select(s, c)                        // idle never enters the queues
    case Some(t) =>
      match s.state[t]
      case Running => Select(MakeReady(Leave(s, c), c, t), c)
      case Blocked => Select(Leave(s, c), c)
      case Terminated => Select(Leave(s, c), c)
      case _ => Crash(s)                             // the arm marked unreachable
  }

  /** Linked to a neighbour in a ready queue, which is what `is_enqueued` tests. */
  ghost predicate HasNeighbour(s: Kernel, c: nat, t: nat)
    requires c < |s.cores|
  {
    exists p :: 0 <= p < |s.cores[c].queues| && t in s.cores[c].queues[p] && |s.cores[c].queues[p]| >= 2
  }

  ghost predicate EntryAssertionsHold(s: Kernel, c: nat)
    requires Sound(s) && c < |s.cores|
  {
    s.cores[c].current.Some? ==> (
      && !HasNeighbour(s, c, s.cores[c].current.value)
      && !s.state[s.cores[c].current.value].Ready?)
  }

  ghost predicate RunsAThread(s: Kernel, c: nat)
    requires Sound(s)
  {
    c < |s.cores| && s.cores[c].current.Some? && s.state[s.cores[c].current.value].Running?
  }

  /** A thread other than idle is on the processor of core c. */
  ghost predicate HasThread(s: Kernel, c: nat)
  {
    c < |s.cores| && s.cores[c].current.Some?
  }

  /** Before the cores run anyone may register; after, only a thread can. A wake is made by a thread, or by
      an interrupt handler such as a timer callback, so on any core that has started. */
  ghost predicate Enabled(s: Kernel, a: Step)
    requires Sound(s)
  {
    && !s.crashed
    && match a
       case Register(t, from) => IsThread(s, t) && s.state[t].Unregistered? && (s.running ==> HasThread(s, from))
       case Start => !s.running && exists t :: 0 <= t < |s.state| && !s.state[t].Unregistered?
       case StartCore(c) => s.running && c < |s.cores| && !s.cores[c].started
       case Block(c) => RunsAThread(s, c)
       case Terminate(c) => RunsAThread(s, c)
       case Wake(t, from) => IsThread(s, t) && s.waiting[t] && from < |s.cores| && s.cores[from].started
       case Reschedule(c, k) => c < |s.cores| && s.cores[c].started && k <= |s.cores[c].inbox|
  }

  ghost function Next(s: Kernel, a: Step): (r: Kernel)
    requires Sound(s) && Enabled(s, a)
    ensures Sound(r) && SameThreads(s, r)
  {
    match a
    case Register(t, from) => ReadyFrom(SetState(s, t, Ready), t, from)
    case Start => s.(running := true)
    case StartCore(c) => Begin(s, c)
    case Block(c) =>
      var t := s.cores[c].current.value;
      SetState(s, t, Blocked).(waiting := s.waiting[t := true])
    case Terminate(c) => SetState(s, s.cores[c].current.value, Terminated)
    case Wake(t, from) =>
      if !s.state[t].Blocked? then Crash(s) else ReadyFrom(s.(waiting := s.waiting[t := false]), t, from)
    case Reschedule(c, k) =>
      if !EntryAssertionsHold(s, c) then Crash(s) else Switch(Drain(s, c, k), c)
  }

  /** A wake is disciplined if its thread has already been switched away from. */
  ghost predicate Disciplined(s: Kernel, a: Step)
    requires Sound(s)
  {
    a.Wake? && IsThread(s, a.t) ==> s.cores[s.pinned[a.t]].current != Some(a.t)
  }

  ghost predicate IsRun(s: Kernel, run: seq<Step>)
    requires Sound(s)
    decreases |run|
  {
    run != [] ==> Enabled(s, run[0]) && IsRun(Next(s, run[0]), run[1..])
  }

  ghost predicate DisciplinedRun(s: Kernel, run: seq<Step>)
    requires Sound(s) && IsRun(s, run)
    decreases |run|
  {
    run != [] ==> Disciplined(s, run[0]) && DisciplinedRun(Next(s, run[0]), run[1..])
  }

  ghost function Exec(s: Kernel, run: seq<Step>): (r: Kernel)
    requires Sound(s) && IsRun(s, run)
    ensures Sound(r) && SameThreads(s, r)
    decreases |run|
  {
    if run == [] then s else Exec(Next(s, run[0]), run[1..])
  }

  /** A fresh kernel with the given threads, none of them registered. */
  ghost predicate Initial(s: Kernel)
  {
    && Sound(s) && !s.running && !s.crashed
    && (forall t :: 0 <= t < |s.state| ==> s.state[t] == Unregistered && !s.waiting[t])
    && (forall c :: 0 <= c < |s.cores| ==>
          !s.cores[c].started && s.cores[c].current == None && Empty(s.cores[c].queues) && s.cores[c].inbox == [])
  }
}
