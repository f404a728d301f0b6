/** What every step of waiting and signalling keeps: a thread's nodes stand on exactly the waitables of
    its wait, a decided wait has one signaller that is taking it down, and once the flag's signalling
    has finished no undecided wait on the flag is left. */
module SignalInvariant {
  import opened Options
  import opened PriorityFifo
  import opened Signals

  // ---------------------------------------------------------------- invariant

  /** The first n nodes stand on the first n waitables, in order; the rest are free. */
  ghost predicate Linked(nodes: seq<Option<Node>>, ws: seq<nat>, n: nat)
  {
    n <= |ws| && forall j :: 0 <= j < |nodes| ==> nodes[j] == if j < n then Some(Node(ws[j], j)) else None
  }

  /** Each node in use stands where the wait put it. */
  ghost predicate Standing(nodes: seq<Option<Node>>, ws: seq<nat>)
  {
    forall j :: 0 <= j < |nodes| && nodes[j].Some? ==> j < |ws| && nodes[j].value == Node(ws[j], j)
  }

  ghost predicate AllFree(nodes: seq<Option<Node>>)
  {
    forall j :: 0 <= j < |nodes| ==> nodes[j].None?
  }

  /** A signaller that has won the wait of t and is taking it down. */
  ghost predicate Owns(p: Signaller, t: nat)
  {
    (p.Tearing? || p.Unlinking? || p.Readying?) && p.t == t
  }

  ghost predicate Owned(s: System, t: nat)
  {
    exists k: nat :: k < |s.signallers| && Owns(s.signallers[k], t)
  }

  ghost predicate Decided(s: System, t: nat)
    requires t < |s.threads|
  {
    s.threads[t].mode.Blocked? && s.threads[t].done
  }

  ghost predicate ThreadInv(s: System, t: nat)
    requires t < |s.threads|
  {
    var th := s.threads[t];
    match th.mode
    case Awake => AllFree(th.nodes)
    case Entering(ws, i) =>
      && Group(s, ws) && Linked(th.nodes, ws, i) && !th.done && (th.guarded ==> s.target in ws)
      && (forall w :: w in ws ==> w < |s.locks| && s.locks[w] == Some(ByThread(t)))
    case Blocked(ws) =>
      && Group(s, ws) && Standing(th.nodes, ws) && (th.guarded ==> s.target in ws)
      && if th.done then Owned(s, t) else Linked(th.nodes, ws, |ws|)
  }

  /** Signaller k holds the lock of every waitable these nodes stand on. */
  ghost predicate Holds(s: System, k: nat, nodes: seq<Option<Node>>)
  {
    forall j :: 0 <= j < |nodes| && nodes[j].Some? ==>
      nodes[j].value.w < |s.locks| && s.locks[nodes[j].value.w] == Some(BySignaller(k))
  }

  ghost predicate SignallerInv(s: System, k: nat)
    requires Shaped(s) && Is(s, k)
  {
    var p := s.signallers[k];
    assert SignallerShaped(s, p);
    && (p.Picking? ==> s.locks[p.w] == Some(BySignaller(k)))
    && (p.Waking? ==> p.wait <= s.threads[p.t].wait)
    && (p.Tearing? || p.Unlinking? || p.Readying? ==> Decided(s, p.t))
    && (p.Unlinking? ==> Holds(s, k, s.threads[p.t].nodes))
    && (p.Readying? ==> AllFree(s.threads[p.t].nodes))
  }

  ghost predicate LockInv(s: System, w: nat)
    requires w < |s.locks|
  {
    match s.locks[w]
    case None => true
    case Some(ByThread(t)) => t < |s.threads| && s.threads[t].mode.Entering? && w in s.threads[t].mode.ws
    case Some(BySignaller(k)) =>
      k < |s.signallers| && (s.signallers[k].Unlinking? || (s.signallers[k].Picking? && s.signallers[k].w == w))
  }

  /** No two signallers are taking down the same wait. */
  ghost predicate SoleOwners(s: System)
  {
    forall j, k, t | 0 <= j < |s.signallers| && 0 <= k < |s.signallers| ::
      Owns(s.signallers[j], t) && Owns(s.signallers[k], t) ==> j == k
  }

  /** No thread is on its way into a guarded wait, and every guarded wait is decided. */
  ghost predicate Answered(s: System)
  {
    forall t :: 0 <= t < |s.threads| && s.threads[t].guarded ==>
      !s.threads[t].mode.Entering? && (s.threads[t].mode.Blocked? ==> s.threads[t].done)
  }

  ghost predicate FlagInv(s: System)
  {
    && (s.flag <==> !s.termination.NotYet?)
    && (s.termination.Finished? ==> Answered(s))
    && (s.termination.Signalling? ==>
          && s.termination.k < |s.signallers|
          && var p := s.signallers[s.termination.k]; !p.Idle? && p.all && p.w == s.target)
  }

  ghost predicate Inv(s: System)
  {
    && Shaped(s) && SoleOwners(s) && FlagInv(s)
    && (forall t :: 0 <= t < |s.threads| ==> ThreadInv(s, t))
    && (forall k :: 0 <= k < |s.signallers| ==> SignallerInv(s, k))
    && (forall w :: 0 <= w < |s.locks| ==> LockInv(s, w))
  }

  lemma InitialInv(s: System)
    requires Initial(s)
    ensures Inv(s)
  {
  }

  /** Step a leads from s to r. */
  ghost predicate Leads(s: System, a: Step, r: System)
  {
    && Shaped(s) && Enabled(s, a) && r == Next(s, a) && Shaped(r)
    && |r.threads| == |s.threads| && |r.signallers| == |s.signallers| && |r.locks| == |s.locks|
    && r.slots == s.slots && r.target == s.target
  }

  // ------------------------------------------------------------------ threads

  /** What a thread's part of the invariant takes from the rest of the system. */
  lemma ThreadFrame(s: System, r: System, t: nat)
    requires Shaped(s) && Shaped(r) && t < |s.threads| == |r.threads| && ThreadInv(s, t)
    requires r.threads[t] == s.threads[t] && r.slots == s.slots && |r.locks| == |s.locks| && r.target == s.target
    requires forall w :: 0 <= w < |s.locks| && s.locks[w] == Some(ByThread(t)) ==> r.locks[w] == s.locks[w]
    requires Decided(s, t) ==> Owned(r, t)
    ensures ThreadInv(r, t)
  {
  }

  /** A wait that is decided keeps its owner for as long as the thread is blocked. */
  lemma KeepOwner(s: System, a: Step, r: System, t: nat)
    requires Inv(s) && Leads(s, a, r) && t < |s.threads| && Decided(s, t) && Decided(r, t)
    ensures Owned(r, t)
  {
    assert ThreadInv(s, t);
    var k: nat :| k < |s.signallers| && Owns(s.signallers[k], t);
    assert SignallerInv(s, k);
    assert Owns(r.signallers[k], t);
  }

  lemma KeepThreadLocks(s: System, a: Step, r: System, t: nat, w: nat)
    requires Inv(s) && Leads(s, a, r) && t < |s.threads| && r.threads[t] == s.threads[t]
    requires w < |s.locks| && s.locks[w] == Some(ByThread(t))
    ensures r.locks[w] == s.locks[w]
  {
    assert LockInv(s, w);
  }

  lemma EnterKeeps(s: System, r: System, t: nat)
    requires Inv(s) && Leads(s, Enter(t), r)
    ensures ThreadInv(r, t)
  {
    assert ThreadInv(s, t);
  }

  lemma BeginKeeps(s: System, r: System, t: nat, ws: seq<nat>, guarded: bool)
    requires Inv(s) && Leads(s, Begin(t, ws, guarded), r)
    ensures ThreadInv(r, t)
  {
    assert ThreadInv(s, t);
  }

  lemma BlockKeeps(s: System, r: System, t: nat)
    requires Inv(s) && Leads(s, Block(t), r)
    ensures ThreadInv(r, t)
  {
    assert ThreadInv(s, t);
  }

  lemma WakeKeeps(s: System, r: System, k: nat)
    requires Inv(s) && Leads(s, Wake(k), r) && Decided(r, s.signallers[k].t)
    ensures ThreadInv(r, s.signallers[k].t)
  {
    var t := s.signallers[k].t;
    assert ThreadInv(s, t);
    if Decided(s, t) {
      KeepOwner(s, Wake(k), r, t);
    } else {
      assert Owns(r.signallers[k], t);
    }
  }

  lemma UnlinkKeeps(s: System, r: System, k: nat)
    requires Inv(s) && Leads(s, Unlink(k), r)
    ensures ThreadInv(r, s.signallers[k].t)
  {
    var t := s.signallers[k].t;
    assert ThreadInv(s, t) && SignallerInv(s, k);
    KeepOwner(s, Unlink(k), r, t);
  }

  lemma ReadyKeeps(s: System, r: System, k: nat)
    requires Inv(s) && Leads(s, Ready(k), r)
    ensures ThreadInv(r, s.signallers[k].t)
  {
    assert SignallerInv(s, k);
  }

  lemma KeepThread(s: System, a: Step, r: System, t: nat)
    requires Inv(s) && Leads(s, a, r) && t < |s.threads|
    ensures ThreadInv(r, t)
  {
    assert ThreadInv(s, t);
    if r.threads[t] == s.threads[t] {
      if Decided(s, t) {
        KeepOwner(s, a, r, t);
      }
      forall w: nat | w < |s.locks| && s.locks[w] == Some(ByThread(t)) ensures r.locks[w] == s.locks[w] {
        KeepThreadLocks(s, a, r, t, w);
      }
      ThreadFrame(s, r, t);
    } else {
      KeepChanged(s, a, r, t);
    }
  }

  lemma KeepChanged(s: System, a: Step, r: System, t: nat)
    requires Inv(s) && Leads(s, a, r) && t < |s.threads| && r.threads[t] != s.threads[t]
    ensures ThreadInv(r, t)
  {
    hide Inv, ThreadInv;
    match a
    case Begin(u, ws, guarded) => BeginKeeps(s, r, u, ws, guarded);
    case Enter(u) => EnterKeeps(s, r, u);
    case Block(u) => BlockKeeps(s, r, u);
    case Wake(k) => WakeKeeps(s, r, k);
    case Unlink(k) => UnlinkKeeps(s, r, k);
    case Ready(k) => ReadyKeeps(s, r, k);
    case _ =>
  }

  // --------------------------------------------------------------- signallers

  /** The locks a signaller holds stay its own until it moves. */
  lemma KeepSignallerLocks(s: System, a: Step, r: System, k: nat, w: nat)
    requires Inv(s) && Leads(s, a, r) && Is(s, k) && r.signallers[k] == s.signallers[k]
    requires w < |s.locks| && s.locks[w] == Some(BySignaller(k))
    ensures r.locks[w] == s.locks[w]
  {
    assert LockInv(s, w);
  }

  /** A decided wait changes only by the hand of its owner. */
  lemma OwnedStays(s: System, a: Step, r: System, k: nat, t: nat)
    requires Inv(s) && Leads(s, a, r) && Is(s, k) && Owns(s.signallers[k], t) && r.signallers[k] == s.signallers[k]
    requires !s.signallers[k].Unlinking?
    ensures t < |s.threads| && r.threads[t] == s.threads[t]
  {
    assert SignallerInv(s, k) && ThreadInv(s, t);
  }

  lemma WaitsGrow(s: System, a: Step, r: System, t: nat)
    requires Leads(s, a, r) && t < |s.threads|
    ensures s.threads[t].wait <= r.threads[t].wait
  {
  }

  lemma KeepStill(s: System, a: Step, r: System, k: nat)
    requires Inv(s) && Leads(s, a, r) && Is(s, k) && r.signallers[k] == s.signallers[k]
    ensures SignallerInv(r, k)
  {
    assert SignallerInv(s, k);
    var p := s.signallers[k];
    if p.Picking? {
      KeepSignallerLocks(s, a, r, k, p.w);
    } else if p.Waking? {
      WaitsGrow(s, a, r, p.t);
    } else if p.Tearing? || p.Readying? {
      OwnedStays(s, a, r, k, p.t);
    } else if p.Unlinking? {
      UnlinkingStays(s, a, r, k);
    }
  }

  /** A decided wait stays decided while its owner stays, and no node of it is linked again. */
  lemma OnlyUnlinked(s: System, a: Step, r: System, k: nat, t: nat)
    requires Inv(s) && Leads(s, a, r) && Is(s, k) && Owns(s.signallers[k], t) && r.signallers[k] == s.signallers[k]
    ensures t < |s.threads| && Decided(r, t)
    ensures forall j :: 0 <= j < s.slots && r.threads[t].nodes[j].Some? ==>
              r.threads[t].nodes[j] == s.threads[t].nodes[j]
  {
    assert SignallerInv(s, k) && ThreadInv(s, t);
  }

  lemma UnlinkingStays(s: System, a: Step, r: System, k: nat)
    requires Inv(s) && Leads(s, a, r) && Is(s, k) && r.signallers[k] == s.signallers[k] && s.signallers[k].Unlinking?
    ensures Decided(r, s.signallers[k].t) && Holds(r, k, r.threads[s.signallers[k].t].nodes)
  {
    assert SignallerInv(s, k);
    OnlyUnlinked(s, a, r, k, s.signallers[k].t);
    hide Inv, ThreadInv, Enabled, Next;
    forall w: nat | w < |s.locks| && s.locks[w] == Some(BySignaller(k)) ensures r.locks[w] == s.locks[w] {
      KeepSignallerLocks(s, a, r, k, w);
    }
  }

  lemma LockGroupHolds(s: System, r: System, k: nat)
    requires Shaped(s) && Leads(s, LockGroup(k), r)
    ensures r.signallers[k].Unlinking? && r.signallers[k].t == s.signallers[k].t
    ensures Holds(r, k, r.threads[s.signallers[k].t].nodes)
  {
    var nodes := s.threads[s.signallers[k].t].nodes;
    forall j | 0 <= j < |nodes| && nodes[j].Some?
      ensures nodes[j].value.w < |s.locks| && r.locks[nodes[j].value.w] == Some(BySignaller(k))
    {
      assert nodes[j].value.w in WaitsOn(nodes);
      assert Free(s, nodes[j].value.w);
    }
  }

  /** Which step takes a signaller where. */
  lemma MovedHow(s: System, a: Step, r: System, k: nat)
    requires Leads(s, a, r) && Is(s, k) && r.signallers[k] != s.signallers[k]
    ensures match r.signallers[k]
            case Picking(_, _) => a == Lock(k)
            case Waking(_, _, _, _, _) => a.Pick? && a.k == k
            case Tearing(_, _, _) => a == Wake(k)
            case Unlinking(_, _, _) => a == LockGroup(k)
            case Readying(_, _, _) => a == Unlink(k)
            case _ => true
  {
    hide LowestFree, LowestUsed, WaitsOn, Release, Acquire, SignallerShaped;
  }

  lemma WakeDecides(s: System, r: System, k: nat)
    requires Leads(s, Wake(k), r) && r.signallers[k].Tearing?
    ensures s.signallers[k].Waking? && r.signallers[k].t == s.signallers[k].t && Decided(r, r.signallers[k].t)
  {
  }

  lemma KeepMoved(s: System, a: Step, r: System, k: nat)
    requires Inv(s) && Leads(s, a, r) && Is(s, k) && r.signallers[k] != s.signallers[k]
    ensures SignallerInv(r, k)
  {
    assert SignallerInv(s, k);
    MovedHow(s, a, r, k);
    hide ThreadInv, LockInv, FlagInv, SoleOwners, LowestFree, LowestUsed, WaitsOn;
    match r.signallers[k]
    case Tearing(_, _, _) => WakeDecides(s, r, k);
    case Unlinking(_, _, _) => LockGroupHolds(s, r, k);
    case Readying(_, _, _) => AllUnlinked(s, r, k);
    case _ =>
  }

  lemma AllUnlinked(s: System, r: System, k: nat)
    requires Leads(s, Unlink(k), r) && r.signallers[k] != s.signallers[k]
    ensures s.signallers[k].Unlinking? && r.signallers[k].Readying? && r.signallers[k].t == s.signallers[k].t
    ensures r.threads == s.threads && AllFree(s.threads[s.signallers[k].t].nodes)
  {
  }

  lemma KeepSignaller(s: System, a: Step, r: System, k: nat)
    requires Inv(s) && Leads(s, a, r) && Is(s, k)
    ensures SignallerInv(r, k)
  {
    if r.signallers[k] == s.signallers[k] {
      KeepStill(s, a, r, k);
    } else {
      KeepMoved(s, a, r, k);
    }
  }

  // -------------------------------------------------------------------- locks

  /** A thread on its way in stays so until it blocks. */
  lemma EnteringStays(s: System, a: Step, r: System, t: nat)
    requires Inv(s) && Leads(s, a, r) && t < |s.threads| && s.threads[t].mode.Entering? && a != Block(t)
    ensures r.threads[t].mode.Entering? && r.threads[t].mode.ws == s.threads[t].mode.ws
  {
    if a.Unlink? || a.Ready? {
      assert SignallerInv(s, a.k);
    }
  }

  lemma KeepLock(s: System, a: Step, r: System, w: nat)
    requires Inv(s) && Leads(s, a, r) && w < |s.locks|
    ensures LockInv(r, w)
  {
    assert LockInv(s, w);
    if r.locks[w] != s.locks[w] {
      assert LockTaken(s, a, r, w);
    } else {
      match s.locks[w]
      case None =>
      case Some(ByThread(t)) =>
        assert a != Block(t);
        EnteringStays(s, a, r, t);
      case Some(BySignaller(k)) =>
        HolderStays(s, a, r, w, k);
    }
  }

  ghost predicate LockTaken(s: System, a: Step, r: System, w: nat)
    requires Leads(s, a, r) && w < |s.locks|
  {
    match r.locks[w]
    case None => true
    case Some(ByThread(t)) => a.Begin? && a.t == t && w in a.ws
    case Some(BySignaller(k)) => (a == Lock(k) && s.signallers[k].w == w) || a == LockGroup(k)
  }

  lemma HolderStays(s: System, a: Step, r: System, w: nat, k: nat)
    requires Inv(s) && Leads(s, a, r) && w < |s.locks| && s.locks[w] == r.locks[w] == Some(BySignaller(k))
    ensures Is(s, k) && r.signallers[k] == s.signallers[k]
  {
    assert LockInv(s, w);
  }

  // ------------------------------------------------------------ owners and flag

  /** Only winning a wait that was undecided makes an owner. */
  lemma NewOwner(s: System, a: Step, r: System, k: nat, t: nat)
    requires Inv(s) && Leads(s, a, r) && Is(s, k) && Owns(r.signallers[k], t)
    ensures Owns(s.signallers[k], t) || (a == Wake(k) && t < |s.threads| && !s.threads[t].done)
  {
  }

  lemma KeepOwners(s: System, a: Step, r: System)
    requires Inv(s) && Leads(s, a, r)
    ensures SoleOwners(r)
  {
    forall j: nat, k: nat, t | j < |r.signallers| && k < |r.signallers|
                               && Owns(r.signallers[j], t) && Owns(r.signallers[k], t)
      ensures j == k
    {
      NewOwner(s, a, r, j, t);
      NewOwner(s, a, r, k, t);
      assert SignallerInv(s, j) && SignallerInv(s, k);
      hide Enabled, Next, ThreadInv, LockInv, FlagInv;
    }
  }

  /** When the scan after the flag finds nobody, every guarded wait has been decided. */
  lemma ScanAnswers(s: System, r: System, k: nat)
    requires Inv(s) && Leads(s, PickNone(k), r) && s.signallers[k].w == s.target
    ensures Answered(s) && Answered(r)
  {
    assert SignallerInv(s, k);
    forall t: nat | t < |s.threads| && s.threads[t].guarded
      ensures !s.threads[t].mode.Entering? && (s.threads[t].mode.Blocked? ==> s.threads[t].done)
    {
      assert ThreadInv(s, t);
      if s.threads[t].mode.Blocked? && !s.threads[t].done {
        var ws := s.threads[t].mode.ws;
        var j :| 0 <= j < |ws| && ws[j] == s.target;
        assert OnQueue(s, t, j, s.target);
      }
    }
  }

  lemma KeepAnswered(s: System, a: Step, r: System)
    requires Inv(s) && Leads(s, a, r) && s.termination.Finished?
    ensures Answered(r)
  {
    forall t: nat | t < |r.threads| && r.threads[t].guarded
      ensures !r.threads[t].mode.Entering? && (r.threads[t].mode.Blocked? ==> r.threads[t].done)
    {
      assert ThreadInv(s, t);
    }
  }

  lemma KeepFlag(s: System, a: Step, r: System)
    requires Inv(s) && Leads(s, a, r)
    ensures FlagInv(r)
  {
    if s.termination.Finished? {
      KeepAnswered(s, a, r);
    } else if a.PickNone? && s.termination == Signalling(a.k) {
      ScanAnswers(s, r, a.k);
    }
  }

  /** Every step keeps the invariant. */
  lemma Keep(s: System, a: Step, r: System)
    requires Inv(s) && Leads(s, a, r)
    ensures Inv(r)
  {
    hide ThreadInv, SignallerInv, LockInv, SoleOwners, FlagInv, Enabled, Next;
    KeepOwners(s, a, r);
    KeepFlag(s, a, r);
    forall t: nat | t < |r.threads| ensures ThreadInv(r, t) {
      KeepThread(s, a, r, t);
    }
    forall k: nat | k < |r.signallers| ensures SignallerInv(r, k) {
      KeepSignaller(s, a, r, k);
    }
    forall w: nat | w < |r.locks| ensures LockInv(r, w) {
      KeepLock(s, a, r, w);
    }
  }

  /** It holds in every state that any run from the start reaches. */
  lemma {:induction false} KeepRun(s: System, run: seq<Step>)
    requires Inv(s) && IsRun(s, run)
    ensures Inv(Exec(s, run))
    decreases |run|
  {
    if run != [] {
      NextShaped(s, run[0]);
      Keep(s, run[0], Next(s, run[0]));
      KeepRun(Next(s, run[0]), run[1..]);
    }
  }
}
