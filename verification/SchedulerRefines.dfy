/** The scheduler on the heap does to one core what the run-level kernel says: with threads named by
    their ids, its `start`, `set_thread_ready`, `post_to_inbox` and `reschedule` are the kernel's. */
module SchedulerRefines {
  import Config
  import opened Options
  import opened PriorityFifo
  import opened WakeOrder
  import opened Threads
  import opened ReadyMatrix
  import opened Schedulers
  import K = KernelRuns
  import S = KernelSelection

  // ------------------------------------------------------------ naming threads

  function Names(ts: seq<Tcb>): (r: seq<nat>)
    ensures |r| == |ts| && forall i :: 0 <= i < |ts| ==> r[i] == ts[i].id
  {
    seq(|ts|, i requires 0 <= i < |ts| => ts[i].id)
  }

  function AllNames(m: Queues<Tcb>): (r: Queues<nat>)
    ensures |r| == |m| && forall p :: 0 <= p < |m| ==> r[p] == Names(m[p])
  {
    seq(|m|, p requires 0 <= p < |m| => Names(m[p]))
  }

  function NameOf(t: Option<Tcb>): Option<nat>
  {
    match t case None => None case Some(tcb) => Some(tcb.id)
  }

  ghost predicate Agrees(ts: set<Tcb>, priority: seq<nat>)
  {
    && (forall t :: t in ts ==> t.id < |priority| && priority[t.id] == t.priority)
    && (forall t, u :: t in ts && u in ts && t.id == u.id ==> t == u)
  }

  lemma EnqueueNames(m: Queues<Tcb>, t: Tcb, p: nat)
    requires p < |m|
    ensures AllNames(Enqueue(m, p, t)) == Enqueue(AllNames(m), p, t.id)
  {
    assert Names(m[p] + [t]) == Names(m[p]) + [t.id];
  }

  lemma {:induction false} EnqueueAllNames(m: Queues<Tcb>, ts: seq<Tcb>, priority: seq<nat>, known: set<Tcb>)
    requires Agrees(known, priority) && forall t :: t in ts ==> t in known && PriorityOf(t) < |m|
    ensures forall n :: n in Names(ts) ==> S.PriorityOf(priority)(n) < |m|
    ensures AllNames(EnqueueAll(m, ts, PriorityOf)) == EnqueueAll(AllNames(m), Names(ts), S.PriorityOf(priority))
    decreases |ts|
  {
    forall n | n in Names(ts) ensures S.PriorityOf(priority)(n) < |m| {
      var i :| 0 <= i < |ts| && Names(ts)[i] == n;
      assert ts[i] in ts;
    }
    if ts != [] {
      var t := ts[0];
      assert t in ts && Names(ts)[1..] == Names(ts[1..]);
      EnqueueNames(m, t, t.priority);
      EnqueueAllNames(Enqueue(m, t.priority, t), ts[1..], priority, known);
    }
  }

  lemma LineupNames(m: Queues<Tcb>, ts: seq<Tcb>, back: Option<Tcb>, priority: seq<nat>, known: set<Tcb>)
    requires Agrees(known, priority) && forall t :: t in ts ==> t in known && PriorityOf(t) < |m|
    requires back.Some? ==> back.value in known && PriorityOf(back.value) < |m|
    ensures forall n :: n in Names(ts) ==> S.PriorityOf(priority)(n) < |m|
    ensures back.Some? ==> S.PriorityOf(priority)(back.value.id) < |m|
    ensures AllNames(Lineup(m, ts, back, PriorityOf)) ==
      Lineup(AllNames(m), Names(ts), NameOf(back), S.PriorityOf(priority))
  {
    EnqueueAllNames(m, ts, priority, known);
    if back.Some? { EnqueueNames(EnqueueAll(m, ts, PriorityOf), back.value, back.value.priority); }
  }

  lemma BestNames(m: Queues<Tcb>)
    ensures Best(AllNames(m)) == Best(m)
  {}

  lemma PopNames(m: Queues<Tcb>)
    ensures PopBest(AllNames(m)) == (NameOf(PopBest(m).0), AllNames(PopBest(m).1))
  {
    BestNames(m);
    var p := Best(m);
    if p < |m| {
      assert Names(m[p])[1..] == Names(m[p][1..]);
      assert AllNames(m)[p := Names(m[p])[1..]] == AllNames(m[p := m[p][1..]]);
    }
  }

  lemma NamesIn(ts: seq<Tcb>, t: Tcb, known: set<Tcb>, priority: seq<nat>)
    requires Agrees(known, priority) && t in known && forall u :: u in ts ==> u in known
    ensures t.id in Names(ts) <==> t in ts
  {
    if t.id in Names(ts) {
      var i :| 0 <= i < |ts| && Names(ts)[i] == t.id;
      assert ts[i] in ts;
    }
    if t in ts {
      var i :| 0 <= i < |ts| && ts[i] == t;
      assert Names(ts)[i] == t.id;
    }
  }

  // --------------------------------------------------------------- refinement

  function Stands(state: State): K.State
  {
    match state
    case Ready => K.Ready
    case Running => K.Running
    case Blocked => K.Blocked
    case Terminated => K.Terminated
  }

  /** Core c of the kernel is for this scheduler's threads, those it may meet. */
  ghost predicate Fixed(sch: Scheduler, s: K.Kernel, c: nat, known: set<Tcb>)
  {
    && K.Sound(s) && c < |s.cores| && sch.coreId == c && sch.idle !in known && Agrees(known, s.priority)
    && forall t :: t in known ==> s.pinned[t.id] == c
  }

  /** And its queues and inbox are this scheduler's. */
  ghost predicate Mirrors(sch: Scheduler, s: K.Kernel, c: nat, known: set<Tcb>)
    reads *
  {
    && Fixed(sch, s, c, known)
    && sch.ready.Members() <= known && (forall t :: t in sch.inbox ==> t in known)
    && s.cores[c].queues == AllNames(sch.ready.queues) && s.cores[c].inbox == Names(sch.inbox)
  }

  /** Core c of the kernel is this scheduler, once it has started. */
  ghost predicate Represents(sch: Scheduler, s: K.Kernel, c: nat, known: set<Tcb>)
    reads *
  {
    && Mirrors(sch, s, c, known)
    && s.cores[c].started && sch.current != null && RepresentsCurrent(sch.current, sch.idle, s, c, known)
  }

  ghost predicate RepresentsCurrent(t: Tcb, idle: Tcb, s: K.Kernel, c: nat, known: set<Tcb>)
    requires K.Sound(s) && c < |s.cores|
    reads t
  {
    if t == idle then s.cores[c].current == None
    else t in known && t.id < |s.state| && s.cores[c].current == Some(t.id) && s.state[t.id] == Stands(t.state)
  }

  lemma {:induction false} EnqueueAllMembers(m: Queues<Tcb>, ts: seq<Tcb>, known: set<Tcb>)
    requires MembersOf(m) <= known && forall t :: t in ts ==> t in known && PriorityOf(t) < |m|
    ensures MembersOf(EnqueueAll(m, ts, PriorityOf)) <= known
    decreases |ts|
  {
    if ts != [] {
      EnqueueMembers(m, ts[0], known);
      EnqueueAllMembers(Enqueue(m, PriorityOf(ts[0]), ts[0]), ts[1..], known);
    }
  }

  lemma EnqueueMembers(m: Queues<Tcb>, t: Tcb, known: set<Tcb>)
    requires MembersOf(m) <= known && t in known && PriorityOf(t) < |m|
    ensures MembersOf(Enqueue(m, PriorityOf(t), t)) <= known
  {
    var r := Enqueue(m, PriorityOf(t), t);
    forall p, i | 0 <= p < |r| && 0 <= i < |r[p]| ensures r[p][i] in known {
      if i < |m[p]| { assert m[p][i] in MembersOf(m); }
    }
  }

  lemma LineupMembers(m: Queues<Tcb>, ts: seq<Tcb>, back: Option<Tcb>, known: set<Tcb>)
    requires MembersOf(m) <= known && forall t :: t in ts ==> t in known && PriorityOf(t) < |m|
    requires back.Some? ==> back.value in known && PriorityOf(back.value) < |m|
    ensures var (best, rest) := PopBest(Lineup(m, ts, back, PriorityOf));
      MembersOf(rest) <= known && (best.Some? ==> best.value in known)
  {
    EnqueueAllMembers(m, ts, known);
    var all := EnqueueAll(m, ts, PriorityOf);
    if back.Some? { EnqueueMembers(all, back.value, known); }
    var l := Lineup(m, ts, back, PriorityOf);
    var p := Best(l);
    if p < |l| {
      var rest := l[p := l[p][1..]];
      assert l[p][0] in MembersOf(l);
      forall q, i | 0 <= q < |rest| && 0 <= i < |rest[q]| ensures rest[q][i] in known {
        assert rest[q][i] == l[q][if q == p then i + 1 else i];
        assert rest[q][i] in MembersOf(l);
      }
    }
  }

  /** The entry assertions of the two models agree. */
  lemma Admitted(sch: Scheduler, s: K.Kernel, c: nat, known: set<Tcb>)
    requires Represents(sch, s, c, known) && sch.CanSwitchFrom(sch.current)
    ensures S.InboxAtHome(s, c) && S.CurrentAtHome(s, c) && K.EntryAssertionsHold(s, c)
    ensures s.cores[c].current.Some? ==> s.state[s.cores[c].current.value] !in {K.Unregistered, K.Ready}
  {
    hide ThreadReadyMatrix.Valid;
    var t := sch.current;
    forall n | n in s.cores[c].inbox ensures n < |s.state| && s.pinned[n] == c {
      var i :| 0 <= i < |sch.inbox| && Names(sch.inbox)[i] == n;
      assert sch.inbox[i] in sch.inbox;
    }
    if t != sch.idle {
      forall p | 0 <= p < |s.cores[c].queues| ensures t.id !in s.cores[c].queues[p] {
        var row := sch.ready.queues[p];
        forall i | 0 <= i < |row| ensures row[i] in sch.ready.Members() {}
        NamesIn(row, t, known, s.priority);
      }
    }
  }

  lemma SameInput(sch: Scheduler, k: nat, s: K.Kernel, c: nat, known: set<Tcb>)
    requires sch.Valid() && k <= |sch.inbox| && Represents(sch, s, c, known) && sch.CanSwitchFrom(sch.current)
    ensures var back := sch.Back(sch.current, sch.current.state);
      && (forall t :: t in sch.inbox[..k] ==> t in known && PriorityOf(t) < |sch.ready.queues|)
      && (back.Some? ==> back.value in known && PriorityOf(back.value) < |sch.ready.queues|)
      && NameOf(back) == S.Back(s, c) && MembersOf(sch.ready.queues) <= known
      && s.cores[c].inbox[..k] == Names(sch.inbox[..k]) && s.cores[c].inbox[k..] == Names(sch.inbox[k..])
  {
    sch.RowsFor(k);
    sch.AllMembers();
    assert forall t :: t in sch.inbox[..k] ==> t in sch.inbox;
    hide ThreadReadyMatrix.Valid, ThreadReadyMatrix.Members, MembersOf, AllNames, K.CoreSound;
  }

  lemma SameFailure(sch: Scheduler, k: nat, s: K.Kernel, c: nat, known: set<Tcb>)
    requires sch.Valid() && k <= |sch.inbox| && Represents(sch, s, c, known)
    requires sch.CanSwitchFrom(sch.current) && !s.crashed
    ensures K.Enabled(s, K.Reschedule(c, k))
    ensures K.Next(s, K.Reschedule(c, k)).crashed <==> sch.current in sch.inbox[..k]
    ensures s.cores[c].current.Some? ==>
      (s.cores[c].current.value in s.cores[c].inbox[..k] <==> sch.current in sch.inbox[..k])
  {
    Admitted(sch, s, c, known);
    SameInput(sch, k, s, c, known);
    S.ReadyArmExactly(s, c, k);
    var t, ts := sch.current, sch.inbox[..k];
    if t == sch.idle {
      assert t !in sch.inbox && t !in ts;
    } else {
      NamesIn(ts, t, known, s.priority);
    }
    hide ThreadReadyMatrix.Valid, ThreadReadyMatrix.Members, K.Next, K.CoreSound, MembersOf, AllNames;
  }

  /** What the kernel's step selects is what the scheduler's does, by name. */
  lemma SameChoice(sch: Scheduler, k: nat, s: K.Kernel, c: nat, known: set<Tcb>)
    requires sch.Valid() && k <= |sch.inbox| && Represents(sch, s, c, known)
    requires sch.CanSwitchFrom(sch.current) && !s.crashed
    requires sch.current !in sch.inbox[..k]
    ensures K.Enabled(s, K.Reschedule(c, k))
    ensures var r, best := K.Next(s, K.Reschedule(c, k)), PopBest(sch.Contenders(k));
      && r.cores[c].current == NameOf(best.0) && r.cores[c].queues == AllNames(best.1)
      && r.cores[c].inbox == Names(sch.inbox[k..]) && r.cores[c].started
      && (best.0.Some? ==>
           best.0.value in known && best.0.value.id < |r.state| && r.state[best.0.value.id] == K.Running)
      && MembersOf(best.1) <= known
  {
    Admitted(sch, s, c, known);
    SameFailure(sch, k, s, c, known);
    SameInput(sch, k, s, c, known);
    S.NextExact(s, c, k);
    var m, ts, back := sch.ready.queues, sch.inbox[..k], sch.Back(sch.current, sch.current.state);
    var l := sch.Contenders(k);
    assert l == Lineup(m, ts, back, PriorityOf);
    hide Lineup, K.Next, K.CoreSound, MembersOf, AllNames, PopBest,
      S.PriorityOf, Scheduler.Valid, Scheduler.CanSwitchFrom;
    LineupNames(m, ts, back, s.priority, known);
    LineupMembers(m, ts, back, known);
    PopNames(l);
    hide Represents;
  }

  /** The scheduler's `reschedule` fails exactly when the kernel's step does, and else takes a core to what the
      kernel's step makes of it. */
  method RescheduleRefines(sch: Scheduler, k: nat, ghost s: K.Kernel, ghost c: nat, ghost known: set<Tcb>)
    returns (ok: bool)
    requires sch.Valid() && k <= |sch.inbox| && Represents(sch, s, c, known)
    requires sch.CanSwitchFrom(sch.current) && !s.crashed
    modifies sch`current, sch`inbox, sch`pokePending, sch.inbox`state, sch.inbox`next, sch.inbox`prev,
             {sch.current}`state, {sch.current}`next, {sch.current}`prev, sch.ready, sch.ready.matrix[..],
             sch.ready.Members()`next, sch.ready.Members()`prev, sch.ready.Members()`state, sch.idle`state
    ensures K.Enabled(s, K.Reschedule(c, k)) && (ok <==> !K.Next(s, K.Reschedule(c, k)).crashed)
    ensures ok ==> Represents(sch, K.Next(s, K.Reschedule(c, k)), c, known)
  {
    SameFailure(sch, k, s, c, known);
    if sch.current !in sch.inbox[..k] { SameChoice(sch, k, s, c, known); }
    assert Fixed(sch, K.Next(s, K.Reschedule(c, k)), c, known);
    hide Fixed, K.Sound, K.Next, K.CoreSound, MembersOf, AllNames, PopBest,
      ThreadReadyMatrix.Valid, ThreadReadyMatrix.Members,
      Scheduler.Valid, Scheduler.ValidBut, Scheduler.CanSwitchFrom, Scheduler.Contenders;
    ok := sch.Reschedule(k);
    sch.AllMembers();
  }

  // ------------------------------------------------- start, ready and post

  /** The kernel has every queued thread of core c Ready. */
  ghost predicate QueuedReady(s: K.Kernel, c: nat)
    requires K.Sound(s) && c < |s.cores|
  {
    forall p, t :: 0 <= p < |s.cores[c].queues| && t in s.cores[c].queues[p] ==> s.state[t].Ready?
  }

  lemma SameFirst(sch: Scheduler, s: K.Kernel, c: nat, known: set<Tcb>)
    requires Mirrors(sch, s, c, known) && QueuedReady(s, c) && s.running && !s.crashed && !s.cores[c].started
    ensures K.Enabled(s, K.StartCore(c))
    ensures var r, best := K.Next(s, K.StartCore(c)), PopBest(sch.ready.queues);
      && !r.crashed && r.cores[c].current == NameOf(best.0) && r.cores[c].queues == AllNames(best.1)
      && r.cores[c].inbox == Names(sch.inbox) && r.cores[c].started
      && (best.0.Some? ==>
           best.0.value in known && best.0.value.id < |r.state| && r.state[best.0.value.id] == K.Running)
      && MembersOf(best.1) <= known
  {
    sch.AllMembers();
    var m := sch.ready.queues;
    PopNames(m);
    LineupMembers(m, [], None, known);
    assert Lineup(m, [], None, PriorityOf) == m;
  }

  /** `start` on the heap is the kernel's step, but for the assertion that idle is Ready. */
  method StartRefines(sch: Scheduler, ghost s: K.Kernel, ghost c: nat, ghost known: set<Tcb>) returns (ok: bool)
    requires sch.Valid() && Mirrors(sch, s, c, known) && QueuedReady(s, c)
    requires s.running && !s.crashed && !s.cores[c].started
    modifies sch`current, sch.ready, sch.ready.matrix[..], sch.ready.Members()`next, sch.ready.Members()`prev,
             sch.ready.Members()`state, sch.idle`state
    ensures K.Enabled(s, K.StartCore(c)) && !K.Next(s, K.StartCore(c)).crashed
    ensures ok <==> K.Next(s, K.StartCore(c)).cores[c].current.Some? || old(sch.idle.state).Ready?
    ensures ok ==> Represents(sch, K.Next(s, K.StartCore(c)), c, known)
  {
    SameFirst(sch, s, c, known);
    ok := sch.Start();
    sch.AllMembers();
  }

  /** `set_thread_ready` on the heap is the kernel's, and leaves what runs alone. */
  method SetThreadReadyRefines(sch: Scheduler, tcb: Tcb, ghost s: K.Kernel, ghost c: nat, ghost known: set<Tcb>)
    requires sch.Valid() && Mirrors(sch, s, c, known) && tcb in known && tcb !in sch.inbox && Loose(tcb, sch.ready)
    requires tcb.pinnedCore == c
    modifies tcb`state, tcb`next, tcb`prev, sch.ready, sch.ready.matrix[..], sch.ready.Members()`next
    ensures sch.Valid() && Mirrors(sch, K.MakeReady(s, c, tcb.id), c, known)
    ensures K.MakeReady(s, c, tcb.id).crashed == s.crashed
    ensures old(Represents(sch, s, c, known)) && tcb != sch.current ==>
      Represents(sch, K.MakeReady(s, c, tcb.id), c, known)
  {
    hide K.MakeReady, K.Sound, AllNames, Fixed, ThreadReadyMatrix.Valid, ThreadReadyMatrix.Members, Enqueue;
    hide Scheduler.ValidBut;
    SameReady(sch, sch.ready.queues, tcb, s, c, known);
    sch.ReadyAgain(tcb);
  }

  lemma SameReady(sch: Scheduler, m: Queues<Tcb>, tcb: Tcb, s: K.Kernel, c: nat, known: set<Tcb>)
    requires Fixed(sch, s, c, known) && tcb in known && s.cores[c].queues == AllNames(m)
    ensures tcb.priority < |m| && tcb.id < |s.state| && sch.coreId == c && tcb != sch.idle
    ensures var r := K.MakeReady(s, c, tcb.id);
      && Fixed(sch, r, c, known) && r.crashed == s.crashed
      && r.cores[c] == s.cores[c].(queues := AllNames(Enqueue(m, tcb.priority, tcb)))
      && forall t :: t in known && t != tcb ==> t.id < |r.state| && r.state[t.id] == s.state[t.id]
  {
    EnqueueNames(m, tcb, tcb.priority);
  }

  /** `post_to_inbox` on the heap is the kernel's: it is refused exactly when the kernel's assertion on the
      result fails. */
  method PostToInboxRefines(sch: Scheduler, tcb: Tcb, ghost s: K.Kernel, ghost c: nat, ghost known: set<Tcb>)
    returns (posted: bool, poke: bool)
    requires sch.Valid() && Mirrors(sch, s, c, known) && tcb in known && tcb !in sch.inbox && Loose(tcb, sch.ready)
    requires tcb.pinnedCore == c && !s.crashed
    modifies sch`inbox, sch`pokePending
    ensures sch.Valid() && Mirrors(sch, K.Post(s, tcb.id), c, known) && (posted <==> !K.Post(s, tcb.id).crashed)
    ensures old(Represents(sch, s, c, known)) ==> Represents(sch, K.Post(s, tcb.id), c, known)
  {
    hide K.Post, K.Sound, AllNames, Names, Fixed, ThreadReadyMatrix.Valid, ThreadReadyMatrix.Members;
    hide Scheduler.ValidBut;
    SamePost(sch, sch.inbox, tcb, s, c, known);
    posted, poke := sch.PostToInbox(tcb);
  }

  lemma SamePost(sch: Scheduler, inbox: seq<Tcb>, tcb: Tcb, s: K.Kernel, c: nat, known: set<Tcb>)
    requires Fixed(sch, s, c, known) && tcb in known && !s.crashed && s.cores[c].inbox == Names(inbox)
    ensures tcb.id < |s.state| && sch.coreId == c && tcb != sch.idle
    ensures var r := K.Post(s, tcb.id);
      && Fixed(sch, r, c, known) && r.state == s.state && (r.crashed <==> |inbox| >= Config.INBOX_CAP)
      && r.cores[c] == if r.crashed then s.cores[c] else s.cores[c].(inbox := Names(inbox + [tcb]))
  {
    assert Names(inbox + [tcb]) == Names(inbox) + [tcb.id];
  }
}
