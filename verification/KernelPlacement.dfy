/** Every registered thread is in exactly one place, in every state a kernel run
    with disciplined wakes can reach; module KernelAssertions has when no assertion fails. */
module KernelPlacement {
  import opened Config
  import opened Options
  import opened PriorityFifo
  import opened KernelRuns

  // -------------------------------------------------------------- invariant

  ghost predicate QueueInv(s: Kernel, c: nat)
    requires Sound(s) && c < |s.cores|
  {
    var queues := s.cores[c].queues;
    && (forall p :: 0 <= p < |queues| ==> Distinct(queues[p]))
    && (forall p, t :: 0 <= p < |queues| && t in queues[p] ==>
          t < |s.state| && s.pinned[t] == c && s.priority[t] == p && s.state[t] == Ready)
  }

  ghost predicate Queued(s: Kernel, t: nat)
    requires Sound(s) && IsThread(s, t)
  {
    t in s.cores[s.pinned[t]].queues[s.priority[t]]
  }

  ghost predicate InboxInv(s: Kernel, c: nat)
    requires Sound(s) && c < |s.cores|
  {
    && Distinct(s.cores[c].inbox)
    && (forall t :: t in s.cores[c].inbox ==>
          t < |s.state| && s.pinned[t] == c && !s.waiting[t] && s.state[t] in {Blocked, Ready} && !Queued(s, t))
  }

  ghost predicate CurrentInv(s: Kernel, c: nat)
    requires Sound(s) && c < |s.cores|
  {
    forall t :: s.cores[c].current == Some(t) ==>
      && t < |s.state| && s.pinned[t] == c && s.cores[c].started
      && (s.state[t] in {Running, Terminated} || (s.state[t] == Blocked && s.waiting[t]))
  }

  ghost predicate ThreadInv(s: Kernel, t: nat)
    requires Sound(s) && IsThread(s, t)
  {
    var core := s.cores[s.pinned[t]];
    && (s.state[t].Running? ==> core.current == Some(t))
    && (s.state[t].Ready? ==> Queued(s, t) || t in core.inbox)
    && (s.state[t].Blocked? ==> s.waiting[t] || t in core.inbox)
    && (s.waiting[t] ==> s.state[t].Blocked?)
  }

  /** All that concerns one core and the threads pinned to it, `except` one thread
      that is being moved and is nowhere. */
  ghost predicate HomeInvBut(s: Kernel, c: nat, except: Option<nat>)
    requires Sound(s) && c < |s.cores|
  {
    && QueueInv(s, c) && InboxInv(s, c) && CurrentInv(s, c)
    && (forall t :: 0 <= t < |s.state| && s.pinned[t] == c && except != Some(t) ==> ThreadInv(s, t))
    && (forall t :: except == Some(t) ==>
          && t < |s.state| && s.pinned[t] == c && !s.waiting[t]
          && !Queued(s, t) && t !in s.cores[c].inbox && s.cores[c].current != Some(t))
  }

  ghost predicate HomeInv(s: Kernel, c: nat)
    requires Sound(s) && c < |s.cores|
  {
    HomeInvBut(s, c, None)
  }

  ghost predicate Inv(s: Kernel)
  {
    && Sound(s) && !s.crashed
    && (forall c :: 0 <= c < |s.cores| ==> HomeInv(s, c))
  }

  /** Nothing but core c and the threads pinned to it differ. */
  ghost predicate OnlyHome(s: Kernel, r: Kernel, c: nat)
    requires Sound(s) && Sound(r)
  {
    && r.pinned == s.pinned && r.priority == s.priority && |r.cores| == |s.cores| && |r.state| == |s.state|
    && (forall d :: 0 <= d < |s.cores| && d != c ==> r.cores[d] == s.cores[d])
    && (forall t :: 0 <= t < |s.state| && s.pinned[t] != c ==> r.state[t] == s.state[t] && r.waiting[t] == s.waiting[t])
  }

  lemma Elsewhere(s: Kernel, r: Kernel, c: nat, d: nat)
    requires Sound(s) && Sound(r) && OnlyHome(s, r, c) && d < |s.cores| && d != c && HomeInv(s, d)
    ensures HomeInv(r, d)
  {
    forall t | 0 <= t < |r.state| && r.pinned[t] == d ensures ThreadInv(r, t) {
      assert ThreadInv(s, t);
    }
    assert forall t :: 0 <= t < |r.state| && r.pinned[t] == d ==> Queued(r, t) == Queued(s, t);
  }

  lemma KeepHome(s: Kernel, r: Kernel, c: nat)
    requires Inv(s) && Sound(r) && c < |s.cores| && OnlyHome(s, r, c) && HomeInv(r, c) && !r.crashed
    ensures Inv(r)
  {
    forall d | 0 <= d < |r.cores| ensures HomeInv(r, d) {
      if d != c { Elsewhere(s, r, c, d); }
    }
  }

  // ------------------------------------------------- placing a thread at home

  lemma ReadyKeeps(s: Kernel, c: nat, t: nat)
    requires Sound(s) && c < |s.cores| && HomeInvBut(s, c, Some(t))
    ensures var r := MakeReady(s, c, t);
      r.crashed == s.crashed && HomeInv(r, c) && OnlyHome(s, r, c) && r.cores[c].current == s.cores[c].current
  {
    var r := MakeReady(s, c, t);
    assert forall u :: 0 <= u < |s.priority| ==> s.priority[u] < |s.cores[c].queues|;
    hide CoreSound;
    var was, now := s.cores[c].queues, r.cores[c].queues;
    assert t in now[s.priority[t]];
    assert forall p, u :: 0 <= p < |now| && u in now[p] ==> u in was[p] || (u == t && p == s.priority[t]);
    forall u | 0 <= u < |r.state| && r.pinned[u] == c ensures ThreadInv(r, u) {
      if u != t { assert ThreadInv(s, u); }
    }
    forall u | u in r.cores[c].inbox ensures !Queued(r, u) {
      assert u != t && !Queued(s, u);
    }
  }

  lemma PostKeeps(s: Kernel, c: nat, t: nat)
    requires Sound(s) && c < |s.cores| && HomeInvBut(s, c, Some(t)) && s.state[t] in {Blocked, Ready}
    requires |s.cores[c].inbox| < INBOX_CAP
    ensures var r := Post(s, t);
      r.crashed == s.crashed && HomeInv(r, c) && OnlyHome(s, r, c)
  {
    var r := Post(s, t);
    assert forall u :: 0 <= u < |s.priority| ==> s.priority[u] < |s.cores[c].queues|;
    hide CoreSound;
    assert forall u :: u in r.cores[c].inbox <==> u in s.cores[c].inbox || u == t;
    assert forall u :: 0 <= u < |s.state| && s.pinned[u] == c ==> Queued(r, u) == Queued(s, u);
    forall u | 0 <= u < |r.state| && r.pinned[u] == c ensures ThreadInv(r, u) {
      if u != t { assert ThreadInv(s, u); }
    }
  }

  /** The first request taken out of the inbox, its thread is nowhere. */
  lemma PoppedKeeps(s: Kernel, c: nat, popped: Kernel)
    requires Sound(s) && c < |s.cores| && HomeInv(s, c) && s.cores[c].inbox != []
    requires Sound(popped) && popped == SetCore(s, c, s.cores[c].(inbox := s.cores[c].inbox[1..]))
    ensures HomeInvBut(popped, c, Some(s.cores[c].inbox[0]))
  {
    var inbox := s.cores[c].inbox;
    var t := inbox[0];
    assert inbox[0] in inbox && forall u :: u in inbox <==> u == t || u in inbox[1..];
    assert forall u :: 0 <= u < |s.priority| ==> s.priority[u] < |s.cores[c].queues|;
    hide CoreSound;
    forall u | 0 <= u < |s.state| && s.pinned[u] == c && u != t ensures ThreadInv(popped, u) {
      assert ThreadInv(s, u);
    }
    assert forall u :: 0 <= u < |s.state| && s.pinned[u] == c ==> Queued(popped, u) == Queued(s, u);
  }

  lemma DrainOneKeeps(s: Kernel, c: nat)
    requires Sound(s) && c < |s.cores| && HomeInv(s, c) && s.cores[c].inbox != []
    ensures var r := DrainOne(s, c);
      r.crashed == s.crashed && HomeInv(r, c) && OnlyHome(s, r, c) && r.cores[c].current == s.cores[c].current
  {
    var inbox := s.cores[c].inbox;
    var popped := SetCore(s, c, s.cores[c].(inbox := inbox[1..]));
    assert inbox[0] in inbox && forall u :: u in inbox[1..] ==> u in inbox;
    assert CoreSound(s.priority, popped.cores[c]);
    hide CoreSound, HomeInvBut, MakeReady;
    PoppedKeeps(s, c, popped);
    ReadyKeeps(popped, c, inbox[0]);
  }

  lemma {:induction false} DrainKeeps(s: Kernel, c: nat, k: nat)
    requires Sound(s) && c < |s.cores| && HomeInv(s, c) && k <= |s.cores[c].inbox|
    ensures var r := Drain(s, c, k);
      r.crashed == s.crashed && HomeInv(r, c) && OnlyHome(s, r, c) && r.cores[c].current == s.cores[c].current
    decreases k
  {
    hide HomeInv, DrainOne, CoreSound;
    if k > 0 {
      DrainOneKeeps(s, c);
      DrainKeeps(DrainOne(s, c), c, k - 1);
    }
  }

  /** A running thread that leaves is nowhere; a blocked or terminated one needs no place. */
  lemma LeaveKeeps(s: Kernel, c: nat, t: nat)
    requires Sound(s) && c < |s.cores| && HomeInv(s, c) && s.cores[c].current == Some(t)
    ensures IsThread(s, t) && s.state[t] in {Running, Blocked, Terminated}
    ensures HomeInvBut(Leave(s, c), c, if s.state[t].Running? then Some(t) else None)
    ensures OnlyHome(s, Leave(s, c), c)
  {
    var r := Leave(s, c);
    hide CoreSound;
    assert ThreadInv(s, t);
    assert s.state[t].Running? ==> !Queued(s, t);
    assert forall u :: 0 <= u < |s.state| && s.pinned[u] == c ==> Queued(r, u) == Queued(s, u);
    forall u | 0 <= u < |s.state| && s.pinned[u] == c && (u == t ==> !s.state[t].Running?) ensures ThreadInv(r, u) {
      assert ThreadInv(s, u);
    }
  }

  lemma SelectShape(s: Kernel, c: nat)
    requires Sound(s) && c < |s.cores|
    ensures var queues, r := s.cores[c].queues, Select(s, c);
      var best := PopBest(queues).0;
      && r.cores == s.cores[c := s.cores[c].(started := true, current := best, queues := PopBest(queues).1)]
      && r.pinned == s.pinned && r.priority == s.priority && r.waiting == s.waiting && r.crashed == s.crashed
      && (best.None? ==> r.state == s.state)
      && (best.Some? ==> best.value < |s.state| && r.state == s.state[best.value := Running])
  {
    var queues := s.cores[c].queues;
    if PopBest(queues).0.Some? { assert queues[Best(queues)][0] in queues[Best(queues)]; }
  }

  lemma {:induction false} PopBestMembers<T>(was: Queues<T>, now: Queues<T>, t: T)
    requires PopBest(was) == (Some(t), now) && Distinct(was[Best(was)])
    ensures |now| == |was| && Distinct(now[Best(was)])
    ensures t in was[Best(was)]
    ensures forall p, u :: 0 <= p < |was| ==> (u in now[p] <==> u in was[p] && !(p == Best(was) && u == t))
  {
    var p := Best(was);
    assert was[p] == [t] + now[p];
    forall u ensures u in now[p] <==> u in was[p] && u != t {
      if u in now[p] {
        var i :| 0 <= i < |now[p]| && now[p][i] == u;
        assert was[p][i + 1] == u;
      }
    }
  }

  /** r is s with t taken from its queue to run on core c. */
  ghost predicate Taken(s: Kernel, r: Kernel, c: nat, t: nat)
    requires Sound(s) && Sound(r)
  {
    && c < |s.cores| && t < |s.state| && s.state[t] == Ready && s.pinned[t] == c && Queued(s, t)
    && r.pinned == s.pinned && r.priority == s.priority && r.waiting == s.waiting && r.state == s.state[t := Running]
    && |r.cores| == |s.cores| && r.cores[c].inbox == s.cores[c].inbox && r.cores[c].started
    && r.cores[c].current == Some(t)
    && |r.cores[c].queues| == |s.cores[c].queues|
    && (forall p, u :: 0 <= p < |s.cores[c].queues| ==>
          (u in r.cores[c].queues[p] <==> u in s.cores[c].queues[p] && u != t))
  }

  lemma TakenKeeps(s: Kernel, r: Kernel, c: nat, t: nat)
    requires Sound(s) && Sound(r) && Taken(s, r, c, t)
    requires HomeInv(s, c) && s.cores[c].current == None
    ensures InboxInv(r, c) && CurrentInv(r, c)
    ensures forall u :: 0 <= u < |r.state| && r.pinned[u] == c ==> ThreadInv(r, u)
  {
    assert forall u :: 0 <= u < |s.priority| ==> s.priority[u] < |s.cores[c].queues|;
    hide CoreSound, Distinct;
    forall u | 0 <= u < |r.state| && r.pinned[u] == c ensures ThreadInv(r, u) {
      assert ThreadInv(s, u);
    }
  }

  lemma SelectTakes(s: Kernel, c: nat)
    requires Sound(s) && c < |s.cores| && QueueInv(s, c) && !Empty(s.cores[c].queues)
    ensures var t, r := PopBest(s.cores[c].queues).0.value, Select(s, c);
      Taken(s, r, c, t) && QueueInv(r, c) && r.crashed == s.crashed && OnlyHome(s, r, c)
  {
    SelectShape(s, c);
    var was, now := PopBest(s.cores[c].queues).0.value, PopBest(s.cores[c].queues).1;
    PopBestMembers(s.cores[c].queues, now, was);
    hide Select, CoreSound, Distinct, PopBest;
  }

  lemma SelectKeeps(s: Kernel, c: nat)
    requires Sound(s) && c < |s.cores| && HomeInv(s, c) && s.cores[c].current == None
    ensures var r := Select(s, c);
      r.crashed == s.crashed && HomeInv(r, c) && OnlyHome(s, r, c)
  {
    var r := Select(s, c);
    if Empty(s.cores[c].queues) {
      SelectShape(s, c);
      hide CoreSound, Select, Distinct, PopBest;
      forall u | 0 <= u < |r.state| && r.pinned[u] == c ensures ThreadInv(r, u) {
        assert ThreadInv(s, u);
      }
      assert InboxInv(r, c);
    } else {
      SelectTakes(s, c);
      TakenKeeps(s, r, c, PopBest(s.cores[c].queues).0.value);
      hide Taken, QueueInv, InboxInv, CurrentInv, ThreadInv;
    }
  }

  // ------------------------------------------------------------------- steps

  lemma ReadyFromKeeps(s: Kernel, t: nat, from: nat)
    requires Sound(s) && IsThread(s, t) && HomeInvBut(s, s.pinned[t], Some(t)) && s.state[t] in {Blocked, Ready}
    requires !ReadyFrom(s, t, from).crashed
    ensures var r := ReadyFrom(s, t, from);
      HomeInv(r, s.pinned[t]) && OnlyHome(s, r, s.pinned[t])
  {
    var c := s.pinned[t];
    if !s.running || from == c {
      ReadyKeeps(s, c, t);
    } else {
      assert |s.cores[c].inbox| < INBOX_CAP;
      PostKeeps(s, c, t);
    }
    hide HomeInvBut, OnlyHome, MakeReady, Post, CoreSound;
  }

  lemma RegisterKeeps(s: Kernel, t: nat, from: nat)
    requires Inv(s) && Enabled(s, Register(t, from)) && !Next(s, Register(t, from)).crashed
    ensures Inv(Next(s, Register(t, from)))
  {
    var c := s.pinned[t];
    assert HomeInv(s, c);
    var s1 := SetState(s, t, Ready);
    assert ThreadInv(s, t) && s.waiting == s.waiting[t := false];
    NowhereAfter(s, s1, c, t, Ready);
    ReadyFromKeeps(s1, t, from);
    hide ReadyFrom, HomeInv, HomeInvBut, CoreSound;
    KeepHome(s, ReadyFrom(s1, t, from), c);
  }

  /** A thread that is not queued, posted, current or about to wait may change state freely. */
  lemma NowhereAfter(s: Kernel, r: Kernel, c: nat, t: nat, st: State)
    requires Sound(s) && c < |s.cores| && HomeInv(s, c) && IsThread(s, t) && s.pinned[t] == c
    requires s.state[t].Unregistered? || (s.waiting[t] && s.cores[c].current != Some(t))
    requires r == s.(state := r.state, waiting := r.waiting)
    requires r.state == s.state[t := st] && r.waiting == s.waiting[t := false]
    ensures Sound(r) && HomeInvBut(r, c, Some(t)) && OnlyHome(s, r, c)
  {
    assert ThreadInv(s, t);
    assert !Queued(s, t) && t !in s.cores[c].inbox && s.cores[c].current != Some(t);
    assert forall u :: 0 <= u < |s.priority| ==> s.priority[u] < |s.cores[c].queues|;
    hide CoreSound, Distinct;
    assert forall u :: 0 <= u < |s.state| && s.pinned[u] == c ==> Queued(r, u) == Queued(s, u);
    forall u | 0 <= u < |r.state| && r.pinned[u] == c && u != t ensures ThreadInv(r, u) {
      assert ThreadInv(s, u);
    }
  }

  lemma WakeKeeps(s: Kernel, t: nat, from: nat)
    requires Inv(s) && Enabled(s, Wake(t, from)) && Disciplined(s, Wake(t, from)) && !Next(s, Wake(t, from)).crashed
    ensures Inv(Next(s, Wake(t, from)))
  {
    var c := s.pinned[t];
    assert HomeInv(s, c) && ThreadInv(s, t);
    var s1 := s.(waiting := s.waiting[t := false]);
    assert s.state == s.state[t := s.state[t]];
    NowhereAfter(s, s1, c, t, s.state[t]);
    ReadyFromKeeps(s1, t, from);
    hide ReadyFrom, HomeInv, HomeInvBut, CoreSound;
    KeepHome(s, ReadyFrom(s1, t, from), c);
  }

  lemma BlockKeeps(s: Kernel, c: nat)
    requires Inv(s) && Enabled(s, Block(c))
    ensures Inv(Next(s, Block(c)))
  {
    var r := Next(s, Block(c));
    assert HomeInv(s, c);
    StoppedKeeps(s, r, c, Blocked);
    KeepHome(s, r, c);
  }

  lemma TerminateKeeps(s: Kernel, c: nat)
    requires Inv(s) && Enabled(s, Terminate(c))
    ensures Inv(Next(s, Terminate(c)))
  {
    var r := Next(s, Terminate(c));
    assert HomeInv(s, c);
    assert ThreadInv(s, s.cores[c].current.value);
    assert r.waiting == s.waiting[s.cores[c].current.value := false];
    StoppedKeeps(s, r, c, Terminated);
    KeepHome(s, r, c);
  }

  /** The running thread stops running, and is still the one on the processor. */
  lemma StoppedKeeps(s: Kernel, r: Kernel, c: nat, st: State)
    requires Sound(s) && c < |s.cores| && HomeInv(s, c) && RunsAThread(s, c) && st in {Blocked, Terminated}
    requires r == s.(state := r.state, waiting := r.waiting)
    requires var t := s.cores[c].current.value;
      r.state == s.state[t := st] && r.waiting == s.waiting[t := st.Blocked?]
    ensures Sound(r) && HomeInv(r, c) && OnlyHome(s, r, c)
  {
    var t := s.cores[c].current.value;
    assert s.cores[c].current == Some(t) && ThreadInv(s, t);
    assert !Queued(s, t) && t !in s.cores[c].inbox;
    hide CoreSound;
    assert forall u :: 0 <= u < |s.state| && s.pinned[u] == c ==> Queued(r, u) == Queued(s, u);
    forall u | 0 <= u < |r.state| && r.pinned[u] == c ensures ThreadInv(r, u) {
      assert ThreadInv(s, u);
    }
  }

  lemma StartCoreKeeps(s: Kernel, c: nat)
    requires Inv(s) && Enabled(s, StartCore(c))
    ensures Inv(Next(s, StartCore(c)))
  {
    assert HomeInv(s, c);
    assert s.cores[c].current == None;
    SelectKeeps(s, c);
    var queues := s.cores[c].queues;
    assert PopBest(queues).0.Some? ==> PopBest(queues).0.value in queues[Best(queues)];
    KeepHome(s, Select(s, c), c);
  }

  lemma SwitchKeeps(s: Kernel, c: nat)
    requires Sound(s) && c < |s.cores| && HomeInv(s, c)
    ensures var r := Switch(s, c);
      r.crashed == s.crashed && HomeInv(r, c) && OnlyHome(s, r, c)
  {
    hide HomeInvBut, CoreSound, MakeReady, Select;
    match s.cores[c].current
    case None => SelectKeeps(s, c);
    case Some(t) =>
      LeaveKeeps(s, c, t);
      if s.state[t].Running? {
        ReadyKeeps(Leave(s, c), c, t);
        SelectKeeps(MakeReady(Leave(s, c), c, t), c);
      } else {
        SelectKeeps(Leave(s, c), c);
      }
  }

  lemma EntryAssertions(s: Kernel, c: nat)
    requires Sound(s) && c < |s.cores| && HomeInv(s, c)
    ensures EntryAssertionsHold(s, c)
  {
    if s.cores[c].current.Some? {
      assert s.cores[c].current == Some(s.cores[c].current.value);
    }
  }

  lemma RescheduleKeeps(s: Kernel, c: nat, k: nat)
    requires Inv(s) && Enabled(s, Reschedule(c, k))
    ensures Inv(Next(s, Reschedule(c, k)))
  {
    assert HomeInv(s, c);
    EntryAssertions(s, c);
    DrainKeeps(s, c, k);
    SwitchKeeps(Drain(s, c, k), c);
    hide HomeInv, CoreSound, Switch, Drain;
    KeepHome(s, Switch(Drain(s, c, k), c), c);
  }

  lemma Keep(s: Kernel, a: Step)
    requires Inv(s) && Enabled(s, a) && Disciplined(s, a) && !Next(s, a).crashed
    ensures Inv(Next(s, a))
  {
    match a
    case Register(t, from) => RegisterKeeps(s, t, from);
    case Start =>
      forall c | 0 <= c < |s.cores| ensures HomeInv(Next(s, a), c) {
        Elsewhere(s, Next(s, a), |s.cores|, c);
      }
    case StartCore(c) => StartCoreKeeps(s, c);
    case Block(c) => BlockKeeps(s, c);
    case Terminate(c) => TerminateKeeps(s, c);
    case Wake(t, from) => WakeKeeps(s, t, from);
    case Reschedule(c, k) => RescheduleKeeps(s, c, k);
  }

  /** A crash is final, so a run that ends without one has had none. */
  lemma NoCrashOnTheWay(s: Kernel, run: seq<Step>)
    requires Sound(s) && run != [] && IsRun(s, run) && !Exec(s, run).crashed
    ensures !Next(s, run[0]).crashed
  {
    assert run[1..] != [] ==> Enabled(Next(s, run[0]), run[1..][0]);
  }

  lemma {:induction false} KeepRun(s: Kernel, run: seq<Step>)
    requires Inv(s) && IsRun(s, run) && DisciplinedRun(s, run) && !Exec(s, run).crashed
    ensures Inv(Exec(s, run)) && SameThreads(s, Exec(s, run))
    decreases |run|
  {
    assert Sound(s);
    if run != [] { NoCrashOnTheWay(s, run); }
    hide Inv, Next, Enabled, Disciplined, Sound;
    if run != [] {
      Keep(s, run[0]);
      KeepRun(Next(s, run[0]), run[1..]);
    }
  }

  lemma InitialInv(s: Kernel)
    requires Initial(s)
    ensures Inv(s)
  {}

  // --------------------------------------------------------------- placement

  datatype Place = OnProcessor(c: nat) | InQueue(c: nat, p: nat, i: nat) | InInbox(c: nat, i: nat) | Waiting

  ghost predicate At(s: Kernel, t: nat, place: Place)
    requires Sound(s) && IsThread(s, t)
  {
    match place
    case OnProcessor(c) => c < |s.cores| && s.cores[c].current == Some(t) && s.state[t].Running?
    case InQueue(c, p, i) =>
      c < |s.cores| && p < |s.cores[c].queues| && i < |s.cores[c].queues[p]| && s.cores[c].queues[p][i] == t
    case InInbox(c, i) => c < |s.cores| && i < |s.cores[c].inbox| && s.cores[c].inbox[i] == t
    case Waiting => s.waiting[t]
  }

  /** On the thread's own core, and in the row of its own priority. */
  ghost predicate AtHome(s: Kernel, t: nat, place: Place)
    requires Sound(s) && IsThread(s, t)
  {
    match place
    case OnProcessor(c) => c == s.pinned[t]
    case InQueue(c, p, i) => c == s.pinned[t] && p == s.priority[t]
    case InInbox(c, i) => c == s.pinned[t]
    case Waiting => true
  }

  lemma PlacedAtHome(s: Kernel, t: nat, place: Place)
    requires Inv(s) && IsThread(s, t) && At(s, t, place)
    ensures AtHome(s, t, place) && s.state[t] !in {Unregistered, Terminated}
    ensures place.OnProcessor? <==> s.state[t].Running?
    ensures place.InQueue? <==> Queued(s, t)
    ensures place.InInbox? <==> t in s.cores[s.pinned[t]].inbox
    ensures place.Waiting? <==> s.waiting[t]
  {
    assert s.priority[t] < |s.cores[s.pinned[t]].queues|;
    hide CoreSound, Distinct;
    assert HomeInv(s, s.pinned[t]) && ThreadInv(s, t);
    match place
    case OnProcessor(c) => assert HomeInv(s, c);
    case InQueue(c, p, i) => assert HomeInv(s, c) && t in s.cores[c].queues[p];
    case InInbox(c, i) => assert HomeInv(s, c) && t in s.cores[c].inbox;
    case Waiting =>
  }

  lemma OnePlace(s: Kernel, t: nat, a: Place, b: Place)
    requires Inv(s) && IsThread(s, t) && At(s, t, a) && At(s, t, b)
    ensures a == b
  {
    PlacedAtHome(s, t, a);
    PlacedAtHome(s, t, b);
    var c := s.pinned[t];
    assert HomeInv(s, c);
    assert Distinct(s.cores[c].inbox) && Distinct(s.cores[c].queues[s.priority[t]]);
    hide Inv, CoreSound;
  }

  lemma SomePlace(s: Kernel, t: nat) returns (place: Place)
    requires Inv(s) && IsThread(s, t) && s.state[t] !in {Unregistered, Terminated}
    ensures At(s, t, place)
  {
    var c := s.pinned[t];
    assert HomeInv(s, c) && ThreadInv(s, t);
    if s.state[t].Running? {
      return OnProcessor(c);
    } else if s.waiting[t] {
      return Waiting;
    } else if t in s.cores[c].inbox {
      var i :| 0 <= i < |s.cores[c].inbox| && s.cores[c].inbox[i] == t;
      return InInbox(c, i);
    } else {
      var row := s.cores[c].queues[s.priority[t]];
      assert Queued(s, t);
      var i :| 0 <= i < |row| && row[i] == t;
      return InQueue(c, s.priority[t], i);
    }
  }

  /** In every state of every disciplined run, short of a failed assertion: a thread that is registered and not
      terminated is in exactly one place, at home; any other thread is in none; and
      a core runs at most one thread. */
  lemma PlacementConserved(s0: Kernel, run: seq<Step>, t: nat)
    requires Initial(s0) && IsRun(s0, run) && DisciplinedRun(s0, run) && !Exec(s0, run).crashed
    requires IsThread(s0, t)
    ensures var s := Exec(s0, run);
      && ((exists place :: At(s, t, place)) <==> s.state[t] !in {Unregistered, Terminated})
      && (forall a, b :: At(s, t, a) && At(s, t, b) ==> a == b)
      && (forall a :: At(s, t, a) ==> AtHome(s, t, a))
      && (forall u :: 0 <= u < |s.state| && s.pinned[u] == s.pinned[t] && s.state[u].Running? && s.state[t].Running? ==>
           u == t)
  {
    InitialInv(s0);
    KeepRun(s0, run);
    var s := Exec(s0, run);
    forall a | At(s, t, a) ensures AtHome(s, t, a) && s.state[t] !in {Unregistered, Terminated} {
      PlacedAtHome(s, t, a);
    }
    forall a, b | At(s, t, a) && At(s, t, b) ensures a == b {
      OnePlace(s, t, a, b);
    }
    if s.state[t] !in {Unregistered, Terminated} {
      var place := SomePlace(s, t);
    }
    assert HomeInv(s, s.pinned[t]) && ThreadInv(s, t);
  }
}
