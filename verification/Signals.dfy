/** Waiting and signalling between cores: any number of threads that block on several waitables at
    once, again and again with the same nodes, and any number of signallers, each inside `signal_one`
    or `signal_all` of some waitable. A step is one atomic access, or what one node or one scan does
    under the locks. One waitable, the target, belongs to a flag that is set once and then signalled,
    as a thread's termination is; a guarded wait is a `wait_until` on that flag. */
module Signals {
  import opened Options
  import opened PriorityFifo

  /** A node of a thread's pool that is in use: on which queue it stands, and its place in the wait. */
  datatype Node = Node(w: nat, index: nat)

  /** Entering: inside `prepare_block` with every lock of ws held, the first `added` nodes linked. */
  datatype Mode =
    | Awake
    | Entering(ws: seq<nat>, added: nat)
    | Blocked(ws: seq<nat>)

  datatype Thread = Thread(
    mode: Mode,
    nodes: seq<Option<Node>>,      // by slot
    done: bool,                    // of the wait group
    winner: Option<nat>,           // of the wait group: the index the winner wrote
    guarded: bool,
    wait: nat                      // history: how many waits have begun
  )

  /** Where a signaller is. Picking and Unlinking hold locks; `wait` is history, not state. */
  datatype Signaller =
    | Idle
    | Scanning(w: nat, all: bool)
    | Picking(w: nat, all: bool)
    | Waking(w: nat, all: bool, t: nat, slot: nat, wait: nat)
    | Tearing(w: nat, all: bool, t: nat)
    | Unlinking(w: nat, all: bool, t: nat)
    | Readying(w: nat, all: bool, t: nat)

  datatype Holder = ByThread(t: nat) | BySignaller(k: nat)

  datatype Termination = NotYet | Signalling(k: nat) | Finished

  datatype System = System(
    slots: nat,                    // nodes in a pool
    threads: seq<Thread>,
    signallers: seq<Signaller>,
    locks: seq<Option<Holder>>,    // one to a waitable
    target: nat,
    flag: bool,
    termination: Termination,
    crashed: bool                  // an assertion of wake_thread failed
  )

  datatype Step =
    | Begin(t: nat, ws: seq<nat>, guarded: bool)
    | Enter(t: nat)
    | Block(t: nat)
    | Start(k: nat, w: nat, all: bool)
    | Terminate(k: nat)
    | Lock(k: nat)
    | Pick(k: nat, t: nat, slot: nat)
    | PickNone(k: nat)
    | Wake(k: nat)
    | LockGroup(k: nat)
    | Unlink(k: nat)
    | Ready(k: nat)

  // -------------------------------------------------------------------- nodes

  /** The lowest slot that is free, or the number of slots. */
  function LowestFree(nodes: seq<Option<Node>>): (i: nat)
    ensures i <= |nodes| && (forall j :: 0 <= j < i ==> nodes[j].Some?) && (i < |nodes| ==> nodes[i].None?)
  {
    if nodes == [] || nodes[0].None? then 0 else
      var i := LowestFree(nodes[1..]);
      assert forall j :: 1 <= j < i + 1 ==> nodes[j] == nodes[1..][j - 1];
      i + 1
  }

  /** The lowest slot in use, or the number of slots. */
  function LowestUsed(nodes: seq<Option<Node>>): (i: nat)
    ensures i <= |nodes| && (forall j :: 0 <= j < i ==> nodes[j].None?) && (i < |nodes| ==> nodes[i].Some?)
  {
    if nodes == [] || nodes[0].Some? then 0 else
      var i := LowestUsed(nodes[1..]);
      assert forall j :: 1 <= j < i + 1 ==> nodes[j] == nodes[1..][j - 1];
      i + 1
  }

  /** The waitables a thread with these nodes stands on, as the first pass of the teardown collects them. */
  function WaitsOn(nodes: seq<Option<Node>>): (ws: seq<nat>)
    ensures forall w :: w in ws <==> exists j :: 0 <= j < |nodes| && nodes[j].Some? && nodes[j].value.w == w
  {
    if nodes == [] then [] else
      var rest := nodes[1..];
      assert forall j :: 0 <= j < |rest| ==> nodes[j + 1] == rest[j];
      (if nodes[0].Some? then [nodes[0].value.w] else []) + WaitsOn(rest)
  }

  /** Node `slot` of thread t stands on the queue of w. */
  ghost predicate OnQueue(s: System, t: nat, slot: nat, w: nat)
  {
    && t < |s.threads| && slot < |s.threads[t].nodes|
    && s.threads[t].nodes[slot].Some? && s.threads[t].nodes[slot].value.w == w
  }

  // -------------------------------------------------------------------- steps

  ghost predicate Free(s: System, w: nat)
  {
    w < |s.locks| && s.locks[w].None?
  }

  /** What `wait_for_any` asserts of its waitables, with the lock group's check that they differ. */
  ghost predicate Group(s: System, ws: seq<nat>)
  {
    0 < |ws| <= s.slots && Distinct(ws) && forall w :: w in ws ==> w < |s.locks|
  }

  ghost predicate Is(s: System, k: nat)
  {
    k < |s.signallers|
  }

  ghost predicate Shaped(s: System)
  {
    && s.target < |s.locks| && s.slots > 0
    && (forall t :: 0 <= t < |s.threads| ==> |s.threads[t].nodes| == s.slots)
    && (forall k :: 0 <= k < |s.signallers| ==> SignallerShaped(s, s.signallers[k]))
  }

  ghost predicate SignallerShaped(s: System, p: Signaller)
  {
    && (!p.Idle? ==> p.w < |s.locks|)
    && (p.Waking? ==> p.t < |s.threads| && p.slot < s.slots)
    && (p.Tearing? || p.Unlinking? || p.Readying? ==> p.t < |s.threads|)
  }

  ghost predicate Enabled(s: System, a: Step)
    requires Shaped(s)
  {
    && !s.crashed
    && match a
       case Begin(t, ws, guarded) =>
         && t < |s.threads| && s.threads[t].mode.Awake? && Group(s, ws) && (forall w :: w in ws ==> Free(s, w))
         && (guarded ==> s.target in ws && !s.flag)                  // checked under the locks
       case Enter(t) =>
         && t < |s.threads| && s.threads[t].mode.Entering? && s.threads[t].mode.added < |s.threads[t].mode.ws|
         && LowestFree(s.threads[t].nodes) < s.slots
       case Block(t) =>
         t < |s.threads| && s.threads[t].mode.Entering? && s.threads[t].mode.added == |s.threads[t].mode.ws|
       case Start(k, w, _) => Is(s, k) && s.signallers[k].Idle? && w < |s.locks|
       case Terminate(k) => Is(s, k) && s.signallers[k].Idle? && s.termination.NotYet?
       case Lock(k) => Is(s, k) && s.signallers[k].Scanning? && Free(s, s.signallers[k].w)
       case Pick(k, t, slot) =>
         Is(s, k) && s.signallers[k].Picking? && OnQueue(s, t, slot, s.signallers[k].w) && !s.threads[t].done
       case PickNone(k) =>
         && Is(s, k) && s.signallers[k].Picking?
         && (forall t: nat, slot: nat :: OnQueue(s, t, slot, s.signallers[k].w) ==> s.threads[t].done)
       case Wake(k) => Is(s, k) && s.signallers[k].Waking?
       case LockGroup(k) =>
         && Is(s, k) && s.signallers[k].Tearing?
         && (forall w :: w in WaitsOn(s.threads[s.signallers[k].t].nodes) ==> Free(s, w))
       case Unlink(k) => Is(s, k) && s.signallers[k].Unlinking?
       case Ready(k) => Is(s, k) && s.signallers[k].Readying?
  }

  ghost function SetThread(s: System, t: nat, th: Thread): System
    requires t < |s.threads|
  {
    s.(threads := s.threads[t := th])
  }

  ghost function Move(s: System, k: nat, p: Signaller): System
    requires Is(s, k)
  {
    s.(signallers := s.signallers[k := p])
  }

  ghost function Release(locks: seq<Option<Holder>>, h: Holder): (r: seq<Option<Holder>>)
    ensures |r| == |locks|
    ensures forall w :: 0 <= w < |locks| ==> r[w] == if locks[w] == Some(h) then None else locks[w]
  {
    seq(|locks|, w requires 0 <= w < |locks| => if locks[w] == Some(h) then None else locks[w])
  }

  ghost function Acquire(locks: seq<Option<Holder>>, ws: seq<nat>, h: Holder): (r: seq<Option<Holder>>)
    ensures |r| == |locks|
    ensures forall w :: 0 <= w < |locks| ==> r[w] == if w in ws then Some(h) else locks[w]
  {
    seq(|locks|, w requires 0 <= w < |locks| => if w in ws then Some(h) else locks[w])
  }

  /** After a round: `signal_one` returns, `signal_all` looks again. */
  ghost function Onward(p: Signaller): Signaller
    requires !p.Idle?
  {
    if p.all then Scanning(p.w, true) else Idle
  }

  /** The assertions of `wake_thread`: a freed node has neither group nor waitable nor index. */
  ghost predicate Wakeable(s: System, t: nat, slot: nat)
    requires t < |s.threads| && slot < |s.threads[t].nodes|
  {
    s.threads[t].nodes[slot].Some? && s.threads[t].mode.Blocked?
  }

  /** `wake_thread` up to the outcome of `try_win`. */
  ghost function Woken(s: System, k: nat): System
    requires Shaped(s) && Is(s, k) && s.signallers[k].Waking?
  {
    var p := s.signallers[k];
    var th := s.threads[p.t];
    if !Wakeable(s, p.t, p.slot) then s.(crashed := true)
    else if th.done then Move(s, k, Onward(p))                            // lost
    else
      var won := th.(done := true, winner := Some(th.nodes[p.slot].value.index));
      Move(SetThread(s, p.t, won), k, Tearing(p.w, p.all, p.t))
  }

  /** One round of the second pass of `teardown_wait_group`, and the unlocking after the last. */
  ghost function Unlinked(s: System, k: nat): System
    requires Shaped(s) && Is(s, k) && s.signallers[k].Unlinking?
  {
    var p := s.signallers[k];
    var th := s.threads[p.t];
    var i := LowestUsed(th.nodes);
    if i < |th.nodes| then SetThread(s, p.t, th.(nodes := th.nodes[i := None]))
    else Move(s, k, Readying(p.w, p.all, p.t)).(locks := Release(s.locks, BySignaller(k)))
  }

  ghost function Next(s: System, a: Step): System
    requires Shaped(s) && Enabled(s, a)
  {
    match a
    case Begin(t, ws, guarded) =>
      var th := s.threads[t];
      SetThread(s, t, Thread(Entering(ws, 0), th.nodes, false, None, guarded, th.wait + 1))
      .(locks := Acquire(s.locks, ws, ByThread(t)))
    case Enter(t) =>
      var th := s.threads[t];
      var i := th.mode.added;
      var nodes := th.nodes[LowestFree(th.nodes) := Some(Node(th.mode.ws[i], i))];
      SetThread(s, t, th.(nodes := nodes, mode := Entering(th.mode.ws, i + 1)))
    case Block(t) =>
      SetThread(s, t, s.threads[t].(mode := Blocked(s.threads[t].mode.ws))).(locks := Release(s.locks, ByThread(t)))
    case Start(k, w, all) => Move(s, k, Scanning(w, all))
    case Terminate(k) => Move(s, k, Scanning(s.target, true)).(flag := true, termination := Signalling(k))
    case Lock(k) =>
      var p := s.signallers[k];
      Move(s, k, Picking(p.w, p.all)).(locks := s.locks[p.w := Some(BySignaller(k))])
    case Pick(k, t, slot) =>
      var p := s.signallers[k];
      Move(s, k, Waking(p.w, p.all, t, slot, s.threads[t].wait)).(locks := Release(s.locks, BySignaller(k)))
    case PickNone(k) =>
      Move(s, k, Idle).(locks := Release(s.locks, BySignaller(k)),
                        termination := if s.termination == Signalling(k) then Finished else s.termination)
    case Wake(k) => Woken(s, k)
    case LockGroup(k) =>
      var p := s.signallers[k];
      Move(s, k, Unlinking(p.w, p.all, p.t)).(locks := Acquire(s.locks, WaitsOn(s.threads[p.t].nodes), BySignaller(k)))
    case Unlink(k) => Unlinked(s, k)
    case Ready(k) =>
      var p := s.signallers[k];
      Move(SetThread(s, p.t, s.threads[p.t].(mode := Awake)), k, Onward(p))
  }

  lemma NextSizes(s: System, a: Step)
    requires Shaped(s) && Enabled(s, a)
    ensures var r := Next(s, a);
      && |r.threads| == |s.threads| && |r.signallers| == |s.signallers| && |r.locks| == |s.locks|
      && r.slots == s.slots && r.target == s.target
      && forall t :: 0 <= t < |r.threads| ==> |r.threads[t].nodes| == s.slots
  {
    hide LowestFree, LowestUsed, WaitsOn;
  }

  lemma NextSignallerShaped(s: System, a: Step, k: nat)
    requires Shaped(s) && Enabled(s, a) && k < |Next(s, a).signallers| == |s.signallers|
    ensures SignallerShaped(Next(s, a), Next(s, a).signallers[k])
  {
    assert SignallerShaped(s, s.signallers[k]);
    NextSizes(s, a);
    hide LowestFree, LowestUsed, WaitsOn, Release, Acquire;
    var r := Next(s, a);
    if r.signallers[k] != s.signallers[k] {
      MovedShaped(s, a, k);
    }
  }

  lemma MovedShaped(s: System, a: Step, k: nat)
    requires Shaped(s) && Enabled(s, a) && k < |Next(s, a).signallers| == |s.signallers|
    requires Next(s, a).signallers[k] != s.signallers[k]
    ensures SignallerShaped(s, Next(s, a).signallers[k])
  {
    assert SignallerShaped(s, s.signallers[k]);
    hide LowestFree, LowestUsed, WaitsOn, Release, Acquire;
  }

  lemma NextShaped(s: System, a: Step)
    requires Shaped(s) && Enabled(s, a)
    ensures var r := Next(s, a);
      && Shaped(r) && |r.threads| == |s.threads| && |r.signallers| == |s.signallers| && |r.locks| == |s.locks|
      && r.slots == s.slots && r.target == s.target
  {
    var r := Next(s, a);
    NextSizes(s, a);
    hide Enabled, Next;
    forall k: nat | k < |r.signallers| ensures SignallerShaped(r, r.signallers[k]) {
      NextSignallerShaped(s, a, k);
    }
  }

  ghost predicate IsRun(s: System, run: seq<Step>)
    requires Shaped(s)
    decreases |run|
  {
    run != [] ==> Enabled(s, run[0]) && (NextShaped(s, run[0]); IsRun(Next(s, run[0]), run[1..]))
  }

  ghost function Exec(s: System, run: seq<Step>): (r: System)
    requires Shaped(s) && IsRun(s, run)
    ensures Shaped(r)
    decreases |run|
  {
    if run == [] then s else
      NextShaped(s, run[0]);
      Exec(Next(s, run[0]), run[1..])
  }

  ghost predicate Initial(s: System)
  {
    && Shaped(s) && !s.flag && s.termination.NotYet? && !s.crashed
    && (forall t :: 0 <= t < |s.threads| ==>
         s.threads[t].mode.Awake? && forall i :: 0 <= i < s.slots ==> s.threads[t].nodes[i].None?)
    && (forall k :: 0 <= k < |s.signallers| ==> s.signallers[k].Idle?)
    && (forall w :: 0 <= w < |s.locks| ==> s.locks[w].None?)
  }
}
