/** One core's `Scheduler`: the ready structure, the inbox and `reschedule`. */
module Schedulers {
  import opened Config
  import opened Options
  import opened Threads
  import opened PriorityFifo
  import opened ReadyMatrix
  import opened WakeOrder

  /** t is in no ready queue. */
  ghost predicate Loose(t: Tcb, ready: ThreadReadyMatrix)
    reads t, ready
  {
    t !in ready.Members() && !t.IsEnqueued() && t.priority < MAX_PRIORITIES
  }

  /** What a drain starts from. */
  datatype Before = Before(inbox: seq<Tcb>, states: seq<State>, rows: Queues<Tcb>, members: set<Tcb>)

  class Scheduler {
    const coreId: nat
    const idle: Tcb
    const ready: ThreadReadyMatrix
    var current: Tcb?
    var inbox: seq<Tcb>
    var pokePending: bool

    ghost predicate Valid()
      reads *
    {
      ValidBut(null)
    }

    /** Valid, except that thread x, if any, may be in the inbox and in a ready queue at once. */
    ghost predicate ValidBut(x: Tcb?)
      reads *
    {
      && ready.Valid() && idle.pinnedCore == coreId && idle !in ready.Members() && idle !in inbox
      && Distinct(inbox)
      && (forall t :: t in inbox ==> t.pinnedCore == coreId && (t != x ==> Loose(t, ready)))
      && (forall t :: t in ready.Members() ==> t.state.Ready? && t.pinnedCore == coreId)
    }

    constructor (coreId: nat, idle: Tcb, ready: ThreadReadyMatrix)
      requires ready.Valid() && Empty(ready.queues) && idle.pinnedCore == coreId
      ensures Valid() && this.coreId == coreId && this.idle == idle && this.ready == ready
      ensures current == null && inbox == [] && !pokePending
    {
      this.coreId, this.idle, this.ready := coreId, idle, ready;
      current, inbox, pokePending := null, [], false;
    }

    /** Idle is marked Ready like any thread, and queued unlike any. */
    method SetThreadReady(tcb: Tcb)
      requires ready.Valid() && tcb.pinnedCore == coreId && tcb !in ready.Members()
      requires tcb != idle ==> Loose(tcb, ready)
      modifies tcb`state, tcb`next, tcb`prev, ready, ready.matrix[..], ready.Members()`next
      ensures ready.Valid() && tcb.state.Ready? && |old(ready.queues)| == MAX_PRIORITIES
      ensures ready.queues == if tcb == idle then old(ready.queues) else Enqueue(old(ready.queues), tcb.priority, tcb)
    {
      MatrixSize(ready);
      hide ThreadReadyMatrix.Valid, ThreadReadyMatrix.Members, Enqueue;
      tcb.state := Ready;
      if tcb == idle { return; }
      ready.EnqueueThread(tcb);
    }

    lemma Head()
      requires Valid() && inbox != []
      ensures inbox[0] in inbox && inbox[0] != idle && Distinct(inbox[1..])
      ensures forall t :: t in inbox[1..] ==> t in inbox && t != inbox[0]
      ensures |ready.queues| == MAX_PRIORITIES && ready.Members() == MembersOf(ready.queues)
      ensures forall t :: t in ready.Members() ==> allocated(t)
    {
      var rest := inbox[1..];
      assert forall i :: 0 <= i < |rest| ==> rest[i] == inbox[i + 1];
    }

    /** One round of the drain loop. */
    method DrainOne()
      requires Valid() && inbox != []
      modifies `inbox, {inbox[0]}`state, {inbox[0]}`next, {inbox[0]}`prev, ready, ready.matrix[..], ready.Members()`next
      ensures Valid() && inbox == old(inbox)[1..] && old(inbox)[0].state.Ready?
      ensures |old(ready.queues)| == MAX_PRIORITIES && old(inbox)[0].priority < MAX_PRIORITIES
      ensures ready.queues == Enqueue(old(ready.queues), old(inbox)[0].priority, old(inbox)[0])
      ensures ready.Members() == old(ready.Members()) + {old(inbox)[0]}
      ensures forall t :: t in inbox ==> t.state == old(t.state)
    {
      hide ThreadReadyMatrix.Valid, ThreadReadyMatrix.Members, MembersOf, Enqueue, Distinct;
      Head();
      var tcb := inbox[0];
      ghost var members := ready.Members();
      assert forall t :: t in members ==> t.state.Ready? && t.pinnedCore == coreId;
      inbox := inbox[1..];
      SetThreadReady(tcb);
      assert forall t :: t in members ==> t.state.Ready? && t.pinnedCore == coreId;
      MembersAfterEnqueue(ready, old(ready.queues), tcb);
      assert ready.Members() == members + {tcb};
      forall t | t in inbox ensures t.pinnedCore == coreId && Loose(t, ready) {
        assert t in old(inbox) && old(Loose(t, ready));
      }
      forall t | t in ready.Members() ensures t.state.Ready? && t.pinnedCore == coreId {
        assert t == tcb || t in members;
      }
    }

    /** After j rounds of a drain that began at `was`. */
    ghost predicate Drained(was: Before, j: nat)
      requires |was.states| == |was.inbox| && j <= |was.inbox|
      reads this`inbox, ready, was.inbox
    {
      && inbox == was.inbox[j..]
      && (forall t :: t in was.inbox[..j] ==> t.priority < |was.rows| && t.state.Ready?)
      && (forall i :: j <= i < |was.inbox| ==> was.inbox[i].state == was.states[i])
      && ready.queues == EnqueueAll(was.rows, was.inbox[..j], PriorityOf)
      && ready.Members() == was.members + set t | t in was.inbox[..j]
    }

    ghost function Now(): (b: Before)
      reads this, ready, inbox
      ensures |b.states| == |b.inbox|
    {
      Before(inbox, seq(|inbox|, i requires 0 <= i < |inbox| reads this, inbox => inbox[i].state),
             ready.queues, ready.Members())
    }

    lemma DrainedMore(was: Before, j: nat, queues: Queues<Tcb>)
      requires |was.states| == |was.inbox| && j < |was.inbox|
      requires var t := was.inbox[j];
        && t.priority < |was.rows| && t.state.Ready? && inbox == was.inbox[j..][1..]
        && |queues| == |was.rows| && ready.queues == Enqueue(queues, t.priority, t)
        && ready.Members() == (was.members + set t | t in was.inbox[..j]) + {t}
      requires forall t :: t in was.inbox[..j] ==> t.priority < |was.rows| && t.state.Ready?
      requires forall i :: j < i < |was.inbox| ==> was.inbox[i].state == was.states[i]
      requires queues == EnqueueAll(was.rows, was.inbox[..j], PriorityOf)
      ensures Drained(was, j + 1)
    {
      var ts, t := was.inbox, was.inbox[j];
      assert ts[..j + 1] == ts[..j] + [t];
      EnqueueAllSnoc(was.rows, ts[..j], t, PriorityOf);
      assert forall u :: u in ts[..j + 1] <==> u in ts[..j] || u == t;
    }

    method DrainNext(j: nat, ghost was: Before)
      requires Valid() && |was.states| == |was.inbox| && j < |was.inbox| && |was.rows| == MAX_PRIORITIES
      requires Drained(was, j)
      modifies `inbox, was.inbox`state, was.inbox`next, was.inbox`prev, ready, ready.matrix[..], was.members`next
      ensures Valid() && Drained(was, j + 1)
    {
      ghost var queues, ts := ready.queues, was.inbox;
      assert inbox[0] in inbox && inbox[0] == ts[j] && ts[j..][1..] == ts[j + 1..];
      assert ts[j] !in ready.Members() && ts[j] !in ts[..j];
      DrainOne();
      assert forall i :: j < i < |ts| ==> ts[i] in inbox;
      DrainedMore(was, j, queues);
    }

    method ClearPoke()
      requires Valid()
      modifies `pokePending
      ensures Valid() && !pokePending && |old(Now()).rows| == MAX_PRIORITIES && Drained(old(Now()), 0)
    {
      pokePending := false;
    }

    /** `drain_inbox`, taking the k requests it finds published. */
    method DrainInbox(k: nat)
      requires Valid() && k <= |inbox|
      modifies `inbox, `pokePending, inbox`state, inbox`next, inbox`prev, ready, ready.matrix[..], ready.Members()`next
      ensures Valid() && !pokePending && Drained(old(Now()), k)
    {
      hide *;
      ghost var was := Now();
      ClearPoke();
      var j := 0;
      while j < k
        invariant j <= k && Valid() && !pokePending && Drained(was, j)
      {
        DrainNext(j, was);
        j := j + 1;
      }
    }

    ghost predicate CanSwitchFrom(t: Tcb)
      reads this, ready, t
    {
      t.pinnedCore == coreId && t !in ready.Members() && !t.state.Ready? && (t != idle ==> Loose(t, ready))
    }

    /** The thread a reschedule rotates: one that was still running, and never idle. */
    ghost function Back(t: Tcb, state: State): Option<Tcb>
    {
      if state.Running? && t != idle then Some(t) else None
    }

    /** A running thread that has a request in the inbox would be queued twice. */
    ghost function Doubled(t: Tcb, state: State): Tcb?
      reads this
    {
      if state.Running? && t in inbox then t else null
    }

    method Rotate(previous: Tcb)
      requires Valid() && CanSwitchFrom(previous)
      modifies previous`state, previous`next, previous`prev, ready, ready.matrix[..], ready.Members()`next
      ensures ValidBut(Doubled(previous, old(previous.state))) && |old(ready.queues)| == MAX_PRIORITIES
      ensures Back(previous, old(previous.state)).Some? ==> previous.priority < MAX_PRIORITIES
      ensures ready.queues == Rotated(old(ready.queues), Back(previous, old(previous.state)), PriorityOf)
      ensures previous.state == if old(previous.state).Running? then Ready else old(previous.state)
      ensures ready.Members() <= old(ready.Members()) + {previous}
    {
      MatrixSize(ready);
      hide ThreadReadyMatrix.Valid, ThreadReadyMatrix.Members;
      if previous.state.Running? { ReadyAgain(previous); }
    }

    method ReadyAgain(tcb: Tcb)
      requires Valid() && tcb.pinnedCore == coreId && tcb !in ready.Members() && (tcb != idle ==> Loose(tcb, ready))
      modifies tcb`state, tcb`next, tcb`prev, ready, ready.matrix[..], ready.Members()`next
      ensures ValidBut(if tcb in inbox then tcb else null) && tcb.state.Ready? && |old(ready.queues)| == MAX_PRIORITIES
      ensures ready.queues == if tcb == idle then old(ready.queues) else Enqueue(old(ready.queues), tcb.priority, tcb)
      ensures ready.Members() <= old(ready.Members()) + {tcb}
    {
      hide ThreadReadyMatrix.Valid, ThreadReadyMatrix.Members, MembersOf, Enqueue, Distinct;
      AllMembers();
      ghost var members := ready.Members();
      assert forall t :: t in members ==> t.state.Ready? && t.pinnedCore == coreId;
      SetThreadReady(tcb);
      assert forall t :: t in members ==> t.state.Ready? && t.pinnedCore == coreId;
      if tcb != idle { MembersAfterEnqueue(ready, old(ready.queues), tcb); } else { AllMembers(); }
      assert ready.Members() == if tcb == idle then members else members + {tcb};
      forall t | t in inbox ensures t.pinnedCore == coreId && (t != tcb ==> Loose(t, ready)) {
        assert old(Loose(t, ready));
      }
      forall t | t in ready.Members() ensures t.state.Ready? && t.pinnedCore == coreId {
        assert t == tcb || t in members;
      }
    }

    /** Taking the best thread takes it out of the members. */
    lemma BestLeaves()
      requires ready.Valid() && !Empty(ready.queues)
      ensures var (best, rest) := PopBest(ready.queues);
        best.value in ready.Members() && MembersOf(rest) == ready.Members() - {best.value}
    {
      var m := ready.queues;
      var p := Best(m);
      var t, rest := m[p][0], m[p := m[p][1..]];
      assert ready.matrix[p].Valid() && Distinct(m[p]) && t == m[p][0];
      assert forall q, i :: 0 <= q < |m| && 0 <= i < |m[q]| && m[q][i] == t ==> q == p && i == 0;
      forall u | u in ready.Members() && u != t
        ensures u in MembersOf(rest)
      {
        var q, i :| 0 <= q < |m| && 0 <= i < |m[q]| && m[q][i] == u;
        assert rest[q][if q == p then i - 1 else i] == u;
      }
      forall u | u in MembersOf(rest)
        ensures u in ready.Members() && u != t
      {
        var q, i :| 0 <= q < |rest| && 0 <= i < |rest[q]| && rest[q][i] == u;
        assert m[q][if q == p then i + 1 else i] == u;
      }
    }

    method TakeBest(ghost x: Tcb?) returns (tcb: Tcb?)
      requires ValidBut(x)
      modifies ready, ready.matrix[..], ready.Members()`next, ready.Members()`prev
      ensures ValidBut(x) && ready.queues == PopBest(old(ready.queues)).1
      ensures tcb == match PopBest(old(ready.queues)).0 case None => null case Some(t) => t
      ensures tcb != null ==>
        tcb in old(ready.Members()) && Loose(tcb, ready) && tcb.pinnedCore == coreId && tcb != idle
      ensures forall t :: t in ready.Members() ==> t in old(ready.Members())
    {
      hide ThreadReadyMatrix.Valid, ThreadReadyMatrix.Members, MembersOf, PopBest, Distinct, Empty, Best;
      ghost var members := ready.Members();
      AllMembers();
      Takeable();
      assert forall t :: t in members ==> t.state.Ready? && t.pinnedCore == coreId;
      tcb := ready.PopBestThread();
      AllMembers();
      assert ready.Members() <= members;
      forall t | t in inbox && t != x ensures t.pinnedCore == coreId && Loose(t, ready) {
        assert old(Loose(t, ready)) && t !in members;
      }
      assert forall t :: t in members ==> t.state.Ready? && t.pinnedCore == coreId;
    }

    lemma Takeable()
      requires ready.Valid()
      ensures match PopBest(ready.queues)
        case (None, rest) => rest == ready.queues
        case (Some(t), rest) =>
          t in ready.Members() && t.priority < MAX_PRIORITIES && MembersOf(rest) == ready.Members() - {t}
    {
      if !Empty(ready.queues) { BestLeaves(); }
    }

    /** The end of `reschedule`: the best ready thread runs, else idle. */
    method SelectNext(ghost x: Tcb?)
      requires ValidBut(x)
      modifies `current, ready, ready.matrix[..], ready.Members()`next, ready.Members()`prev,
               ready.Members()`state, idle`state
      ensures ValidBut(x) && ready.queues == PopBest(old(ready.queues)).1
      ensures current == match PopBest(old(ready.queues)).0 case None => idle case Some(t) => t
      ensures current.state.Running? && CanSwitchFrom(current)
      ensures forall t :: t in old(ready.Members()) + {idle} && t != current ==> t.state == old(t.state)
    {
      hide ThreadReadyMatrix.Valid, ThreadReadyMatrix.Members, PopBest, Distinct;
      AllMembers();
      var next := TakeBest(x);
      if next == null { next := idle; }
      current := next;
      next.state := Running;
    }

    /** `start`, before any drain. Its assertion can fail only of idle. */
    method Start() returns (ok: bool)
      requires Valid()
      modifies `current, ready, ready.matrix[..], ready.Members()`next, ready.Members()`prev,
               ready.Members()`state, idle`state
      ensures ok <==> !Empty(old(ready.queues)) || old(idle.state).Ready?
      ensures ready.queues == PopBest(old(ready.queues)).1
      ensures ok ==> Valid() && current == match PopBest(old(ready.queues)).0 case None => idle case Some(t) => t
      ensures ok ==> current.state.Running? && CanSwitchFrom(current)
    {
      hide ThreadReadyMatrix.Valid, ThreadReadyMatrix.Members, PopBest, Distinct, Empty;
      AllMembers();
      var first := TakeBest(null);
      if first == null { first := idle; }
      if !first.state.Ready? { return false; }
      first.state := Running;
      current := first;
      ok := true;
    }

    lemma RowsFor(k: nat)
      requires Valid() && k <= |inbox|
      ensures |ready.queues| == MAX_PRIORITIES
      ensures forall t :: t in inbox[..k] ==> PriorityOf(t) < |ready.queues|
    {
      MatrixSize(ready);
      hide ThreadReadyMatrix.Valid, ThreadReadyMatrix.Members;
      assert forall t :: t in inbox[..k] ==> t in inbox;
    }

    /** The ready structure after the drain. */
    ghost function AfterDrain(k: nat): (m: Queues<Tcb>)
      requires Valid() && k <= |inbox|
      reads *
      ensures |m| == MAX_PRIORITIES
    {
      RowsFor(k);
      EnqueueAll(ready.queues, inbox[..k], PriorityOf)
    }

    /** The drain of `reschedule`, and what it can do to the thread being switched away from. */
    method DrainBeside(k: nat, previous: Tcb)
      requires Valid() && k <= |inbox| && CanSwitchFrom(previous)
      modifies `inbox, `pokePending, inbox`state, inbox`next, inbox`prev, ready, ready.matrix[..], ready.Members()`next
      ensures Valid() && !pokePending && inbox == old(inbox)[k..] && ready.queues == old(AfterDrain(k))
      ensures previous.state.Ready? <==> previous in old(inbox)[..k]
      ensures previous !in old(inbox)[..k] ==> CanSwitchFrom(previous) && previous.state == old(previous.state)
      ensures ready.Members() <= old(ready.Members()) + set t | t in old(inbox)
    {
      hide ThreadReadyMatrix.Valid, ThreadReadyMatrix.Members, EnqueueAll, Distinct, MembersOf, Valid, ValidBut;
      ghost var was := Now();
      ghost var loose := previous !in inbox;
      DrainInbox(k);
      if loose {
        assert previous.state == old(previous.state) && Loose(previous, ready) == old(Loose(previous, ready));
      }
      Beside(was, k, previous, loose);
    }

    lemma Beside(was: Before, k: nat, previous: Tcb, loose: bool)
      requires Valid() && |was.states| == |was.inbox| && k <= |was.inbox| && Drained(was, k)
      requires loose == (previous !in was.inbox)
      requires loose ==> !previous.state.Ready?
      requires forall i :: 0 <= i < |was.inbox| && was.inbox[i] == previous ==> !was.states[i].Ready?
      ensures previous.state.Ready? <==> previous in was.inbox[..k]
      ensures previous !in was.inbox[..k] && !loose ==> Loose(previous, ready)
      ensures forall i :: k <= i < |was.inbox| && was.inbox[i] == previous ==> was.states[i] == previous.state
      ensures ready.Members() <= was.members + set t | t in was.inbox
    {
      hide ThreadReadyMatrix.Valid, ThreadReadyMatrix.Members, EnqueueAll, Distinct, MembersOf;
      assert forall t :: t in was.inbox <==> t in was.inbox[..k] || t in was.inbox[k..];
    }

    /** The ready structure the next thread is chosen from. */
    ghost function Contenders(k: nat): Queues<Tcb>
      requires Valid() && k <= |inbox| && current != null && CanSwitchFrom(current)
      reads *
    {
      RowsFor(k);
      Lineup(ready.queues, inbox[..k], Back(current, current.state), PriorityOf)
    }

    /** `reschedule`, with the k requests the drain finds published. Past the entry assertions it
        goes wrong exactly when one of them is for the thread being switched away from. All stays
        valid unless that thread was still running with a request left in the inbox, and is then
        queued beside it. */
    method Reschedule(k: nat) returns (ok: bool)
      requires Valid() && k <= |inbox| && current != null && CanSwitchFrom(current)
      modifies `current, `inbox, `pokePending, inbox`state, inbox`next, inbox`prev,
               {current}`state, {current}`next, {current}`prev,
               ready, ready.matrix[..], ready.Members()`next, ready.Members()`prev, ready.Members()`state, idle`state
      ensures ok <==> old(current) !in old(inbox)[..k]
      ensures ok ==> ValidBut(Doubled(old(current), old(current.state))) && !pokePending && inbox == old(inbox)[k..]
      ensures ok ==> current != null && CanSwitchFrom(current)
      ensures ok ==> current.state.Running? && ready.queues == PopBest(old(Contenders(k))).1
      ensures ok ==> current == match PopBest(old(Contenders(k))).0 case None => idle case Some(t) => t
      ensures ok && old(current) != current ==>
        old(current).state == if old(current.state).Running? then Ready else old(current.state)
    {
      hide ThreadReadyMatrix.Valid, ThreadReadyMatrix.Members, Valid, ValidBut, CanSwitchFrom, EnqueueAll,
        Rotated, PopBest, Scheduler.Back;
      var previous := current;
      DrainBeside(k, previous);
      if previous.state.Ready? { return false; }
      ghost var doubled := Doubled(previous, previous.state);
      Rotate(previous);
      SelectNext(doubled);
      ok := true;
    }

    /** `post_to_inbox` as one step: refused exactly when full, and a poke for the first since a drain. */
    method PostToInbox(tcb: Tcb) returns (posted: bool, poke: bool)
      requires Valid() && tcb.pinnedCore == coreId && tcb != idle && tcb !in inbox && Loose(tcb, ready)
      modifies `inbox, `pokePending
      ensures Valid() && posted == (|old(inbox)| < INBOX_CAP) && poke == (posted && !old(pokePending))
      ensures inbox == if posted then old(inbox) + [tcb] else old(inbox)
      ensures pokePending == (posted || old(pokePending))
    {
      if |inbox| >= INBOX_CAP { return false, false; }
      assert forall t :: t in inbox + [tcb] ==> t in inbox || t == tcb;
      hide ThreadReadyMatrix.Valid, ThreadReadyMatrix.Members;
      inbox := inbox + [tcb];
      posted, poke := true, !pokePending;
      pokePending := true;
    }

    lemma AllMembers()
      ensures ready.Members() == MembersOf(ready.queues)
      ensures forall t :: t in ready.Members() ==> allocated(t)
    {}
  }

  ghost function MembersOf(m: Queues<Tcb>): set<Tcb>
  {
    set p, i | 0 <= p < |m| && 0 <= i < |m[p]| :: m[p][i]
  }

  lemma MembersAfterEnqueue(ready: ThreadReadyMatrix, m: Queues<Tcb>, t: Tcb)
    requires t.priority < |m| && ready.queues == Enqueue(m, t.priority, t)
    ensures ready.Members() == MembersOf(m) + {t}
  {
    var q := m[t.priority];
    assert ready.queues[t.priority] == q + [t];
    assert ready.queues[t.priority][|q|] == t;
    forall u | u in MembersOf(m)
      ensures u in ready.Members()
    {
      var p, i :| 0 <= p < |m| && 0 <= i < |m[p]| && m[p][i] == u;
      assert ready.queues[p][i] == u;
    }
  }
}
