/** How one core learns that another core has posted to its inbox: the ring of
    module Ring, the `inbox_poke_pending` flag of the scheduler, and the port's
    `pending` flag, mutex and condition variable. One step per atomic access;
    any number of posters, one target core. */
module Inbox {
  import opened Options
  import R = Ring

  /** Where a poster is inside `post_to_inbox`. */
  datatype Poster =
    | Away
    | Pushing      // inside `inbox.push`; module Ring says where
    | AtPoke       // pushed: about to compare-exchange inbox_poke_pending
    | AtRaise      // won the poke: about to store pending = true
    | AtLock       // about to lock the core's mutex
    | AtSignal     // mutex held: about to signal the condition variable
    | AtUnlock     // mutex held

  /** Where the target core is. */
  datatype Core =
    | Busy         // running a thread
    | AtDrain      // in reschedule, about to clear inbox_poke_pending
    | Draining     // in the pop loop of drain_inbox
    | AtGlance     // entered cortos_port_idle: about to exchange pending
    | AtIdleLock   // found nothing: about to lock the mutex
    | AtRecheck    // mutex held: about to exchange pending again
    | AtWait       // mutex held: about to wait on the condition variable
    | Asleep       // waiting, mutex released
    | Woken        // signalled (or spuriously woken): about to re-lock
    | AtIdleUnlock // mutex held, pending consumed
    | Returned     // cortos_port_idle returned: about to pend a reschedule

  datatype Holder = Nobody | TheCore | ThePoster(i: nat)

  datatype Inbox = Inbox(
    ring: R.Ring,
    posters: seq<Poster>,
    core: Core,
    poke: bool,
    pending: bool,
    mutex: Holder
  )

  datatype Step =
    | InRing(a: R.Step)
    | Poke(i: nat) | Raise(i: nat) | Lock(i: nat) | Signal(i: nat) | Unlock(i: nat)
    | Reschedule | ClearPoke
    | Idle | Glance | IdleLock | Recheck | Wait | SpuriousWake | Relock | IdleUnlock | Leave

  function Init(n: nat, posters: nat): Inbox
  {
    Inbox(R.Init(n, posters, 0), seq(posters, _ => Away), Busy, false, false, Nobody)
  }

  ghost predicate Shaped(s: Inbox)
  {
    R.Shaped(s.ring) && |s.posters| == |s.ring.producers|
  }

  ghost predicate Is(s: Inbox, i: nat, p: Poster)
  {
    i < |s.posters| && s.posters[i] == p
  }

  predicate IsPop(a: R.Step)
  {
    a.PopLoadTail? || a.PopCheck? || a.PopAdvance? || a.PopTake? || a.PopFree?
  }

  ghost predicate Enabled(s: Inbox, a: Step)
    requires Shaped(s)
  {
    match a
    case InRing(r) =>
      && R.Enabled(s.ring, r)
      && (IsPop(r) ==> s.core.Draining?)
      && (r.LoadHead? ==> Is(s, r.i, Away))
    case Poke(i) => Is(s, i, AtPoke)
    case Raise(i) => Is(s, i, AtRaise)
    case Lock(i) => Is(s, i, AtLock) && s.mutex.Nobody?
    case Signal(i) => Is(s, i, AtSignal)
    case Unlock(i) => Is(s, i, AtUnlock)
    case Reschedule => s.core.Busy?
    case ClearPoke => s.core.AtDrain?
    case Idle => s.core.Busy?
    case Glance => s.core.AtGlance?
    case IdleLock => s.core.AtIdleLock? && s.mutex.Nobody?
    case Recheck => s.core.AtRecheck?
    case Wait => s.core.AtWait?
    case SpuriousWake => s.core.Asleep?
    case Relock => s.core.Woken? && s.mutex.Nobody?
    case IdleUnlock => s.core.AtIdleUnlock?
    case Leave => s.core.Returned?
  }

  ghost function At(s: Inbox, i: nat, p: Poster): Inbox
    requires i < |s.posters|
  {
    s.(posters := s.posters[i := p])
  }

  ghost function NextInRing(s: Inbox, a: R.Step): (r: Inbox)
    requires Shaped(s) && Enabled(s, InRing(a))
    ensures Shaped(r)
  {
    R.NextShaped(s.ring, a);
    var s' := s.(ring := R.Next(s.ring, a));
    match a
    case LoadHead(i, _) => At(s', i, Pushing)
    case LoadSequence(i) => if s'.ring.producers[i].Outside? then At(s', i, Away) else s'   // full
    case Publish(i) => At(s', i, AtPoke)
    case PopCheck => if s'.ring.consumer.Resting? then s'.(core := Busy) else s'            // drained
    case _ => s'
  }

  ghost function Next(s: Inbox, a: Step): (r: Inbox)
    requires Shaped(s) && Enabled(s, a)
    ensures Shaped(r)
  {
    match a
    case InRing(r) => NextInRing(s, r)
    case Poke(i) => if s.poke then At(s, i, Away) else At(s, i, AtRaise).(poke := true)
    case Raise(i) => At(s, i, AtLock).(pending := true)
    case Lock(i) => At(s, i, AtSignal).(mutex := ThePoster(i))
    case Signal(i) => At(s, i, AtUnlock).(core := if s.core.Asleep? then Woken else s.core)
    case Unlock(i) => At(s, i, Away).(mutex := Nobody)
    case Reschedule => s.(core := AtDrain)
    case ClearPoke => s.(core := Draining, poke := false)
    case Idle => s.(core := AtGlance)
    case Glance => s.(core := if s.pending then Returned else AtIdleLock, pending := false)
    case IdleLock => s.(core := AtRecheck, mutex := TheCore)
    case Recheck => s.(core := if s.pending then AtIdleUnlock else AtWait, pending := false)
    case Wait => s.(core := Asleep, mutex := Nobody)
    case SpuriousWake => s.(core := Woken)
    case Relock => s.(core := AtRecheck, mutex := TheCore)
    case IdleUnlock => s.(core := Returned, mutex := Nobody)
    case Leave => s.(core := AtDrain)
  }

  ghost predicate Reachable(n: nat, posters: nat, s: Inbox)
    requires n > 0
  {
    exists run :: Exec(Init(n, posters), run) == Some(s)
  }

  ghost function Exec(s: Inbox, run: seq<Step>): Option<Inbox>
    requires Shaped(s)
    decreases |run|
  {
    if run == [] then Some(s)
    else if !Enabled(s, run[0]) then None
    else Exec(Next(s, run[0]), run[1..])
  }

  // ---------------------------------------------------------------- invariant

  predicate Committed(c: Core)
  {
    c.AtIdleUnlock? || c.Returned? || c.AtDrain?
  }

  predicate HoldsMutex(c: Core)
  {
    c.AtRecheck? || c.AtWait? || c.AtIdleUnlock?
  }

  /** Past its claim and not yet past its poke. */
  ghost predicate WillPoke(s: Inbox, i: nat)
    requires Shaped(s)
  {
    i < |s.posters| && (s.posters[i].AtPoke? || R.Claimant(s.ring.producers[i]))
  }

  ghost predicate WillSignal(s: Inbox, i: nat)
  {
    i < |s.posters| && (s.posters[i].AtLock? || s.posters[i].AtSignal?)
  }

  ghost predicate MutexInv(s: Inbox)
  {
    && (forall i: nat :: i < |s.posters| ==>
          (s.mutex == ThePoster(i) <==> s.posters[i].AtSignal? || s.posters[i].AtUnlock?))
    && (s.mutex.ThePoster? ==> s.mutex.i < |s.posters|)
    && (s.mutex.TheCore? <==> HoldsMutex(s.core))
  }

  /** A set poke flag means an interrupt is coming, is here, or has been taken
      by a core on its way to a drain. */
  ghost predicate PokeInv(s: Inbox)
  {
    s.poke ==> s.pending || Committed(s.core) || exists i: nat :: Is(s, i, AtRaise)
  }

  /** A core about to sleep or asleep with `pending` set is about to be signalled. */
  ghost predicate SleepInv(s: Inbox)
  {
    s.pending && (s.core.AtWait? || s.core.Asleep?) ==> exists i: nat :: WillSignal(s, i)
  }

  /** With the poke flag clear and no drain going on, anything left in the ring
      has a poster that will still poke. */
  ghost predicate LeftoverInv(s: Inbox)
    requires Shaped(s)
  {
    !s.poke && !s.core.Draining? && s.ring.tail < s.ring.head ==> exists i: nat :: WillPoke(s, i)
  }

  ghost predicate Inv(s: Inbox)
  {
    R.Inv(s.ring) && Protocol(s)
  }

  ghost predicate Protocol(s: Inbox)
  {
    && Shaped(s)
    && (forall i :: 0 <= i < |s.posters| ==> (s.posters[i].Pushing? <==> !s.ring.producers[i].Outside?))
    && (!s.ring.consumer.Resting? ==> s.core.Draining?)
    && MutexInv(s)
    && PokeInv(s)
    && SleepInv(s)
    && LeftoverInv(s)
  }

  lemma KeepRing(s: Inbox, a: R.Step)
    requires Inv(s) && Enabled(s, InRing(a))
    ensures Inv(Next(s, InRing(a)))
  {
    R.Keep(s.ring, a);
    KeepLeftover(s, a);
    KeepRingSide(s, a);
  }

  /** What a ring step does to the parts of the ring this protocol looks at. */
  lemma RingMoves(s: R.Ring, a: R.Step)
    requires R.Shaped(s) && R.Enabled(s, a)
    ensures R.Shaped(R.Next(s, a)) && |R.Next(s, a).producers| == |s.producers|
    ensures IsPop(a) ==> R.Next(s, a).producers == s.producers
    ensures !IsPop(a) ==> R.Next(s, a).consumer == s.consumer
    ensures a.SizeLoadHead? || a.SizeLoadTail? ==> R.Next(s, a).producers == s.producers
    ensures !IsPop(a) && !a.SizeLoadHead? && !a.SizeLoadTail? ==>
      R.Next(s, a).producers == s.producers[a.i := R.Next(s, a).producers[a.i]]
    ensures a.LoadHead? || a.Reload? || a.Claim? || a.Construct? ==> !R.Next(s, a).producers[a.i].Outside?
    ensures a.Publish? ==> R.Next(s, a).producers[a.i].Outside?
  {}

  lemma KeepRingSide(s: Inbox, a: R.Step)
    requires Protocol(s) && Enabled(s, InRing(a)) && LeftoverInv(NextInRing(s, a))
    ensures Protocol(Next(s, InRing(a)))
  {
    var s' := NextInRing(s, a);
    RingMoves(s.ring, a);
    if i: nat :| Is(s, i, AtRaise) { assert Is(s', i, AtRaise); }
    if i: nat :| WillSignal(s, i) { assert WillSignal(s', i); }
    KeepPushing(s, a);
    KeepMutex(s, a);
  }

  lemma KeepPushing(s: Inbox, a: R.Step)
    requires Protocol(s) && Enabled(s, InRing(a))
    ensures var s' := NextInRing(s, a);
      && Shaped(s')
      && (forall i :: 0 <= i < |s'.posters| ==> (s'.posters[i].Pushing? <==> !s'.ring.producers[i].Outside?))
      && (!s'.ring.consumer.Resting? ==> s'.core.Draining?)
  {
    RingMoves(s.ring, a);
    hide R.Next, R.Cell, PokeInv, SleepInv, LeftoverInv, MutexInv;
  }

  lemma KeepMutex(s: Inbox, a: R.Step)
    requires Protocol(s) && Enabled(s, InRing(a))
    ensures MutexInv(NextInRing(s, a))
  {
    hide R.Next, R.Cell, PokeInv, SleepInv, LeftoverInv;
    if !IsPop(a) && !a.SizeLoadHead? && !a.SizeLoadTail? {
      var p := s.posters[a.i];
      assert !p.AtSignal? && !p.AtUnlock?;
    }
  }

  lemma KeepLeftover(s: Inbox, a: R.Step)
    requires Inv(s) && Enabled(s, InRing(a))
    ensures LeftoverInv(NextInRing(s, a))
  {
    var s' := NextInRing(s, a);
    if !s'.poke && !s'.core.Draining? && s'.ring.tail < s'.ring.head {
      if a.PopCheck? {
        R.EmptySeen(s.ring);
        var i :| 0 <= i < |s.ring.producers| && R.Holds(s.ring.producers[i], s.ring.tail);
        assert WillPoke(s', i);
      } else if a.Claim? && s'.ring.head != s.ring.head {
        assert WillPoke(s', a.i);
      } else {
        var i: nat :| WillPoke(s, i);
        assert WillPoke(s', i);
      }
    }
  }

  lemma KeepPoke(s: Inbox, k: nat)
    requires Protocol(s) && Enabled(s, Poke(k))
    ensures Protocol(Next(s, Poke(k)))
  {
    var s' := Next(s, Poke(k));
    if i: nat :| Is(s, i, AtRaise) { assert Is(s', i, AtRaise); }
    if i: nat :| WillSignal(s, i) { assert WillSignal(s', i); }
    assert !s.poke ==> Is(s', k, AtRaise);
  }

  lemma KeepRaise(s: Inbox, k: nat)
    requires Protocol(s) && Enabled(s, Raise(k))
    ensures Protocol(Next(s, Raise(k)))
  {
    var s' := Next(s, Raise(k));
    assert WillSignal(s', k);
    if i: nat :| WillPoke(s, i) { assert WillPoke(s', i); }
  }

  lemma KeepLocking(s: Inbox, a: Step)
    requires Protocol(s) && Enabled(s, a) && (a.Lock? || a.Signal? || a.Unlock?)
    ensures Protocol(Next(s, a))
  {
    var s' := Next(s, a);
    if i: nat :| Is(s, i, AtRaise) { assert Is(s', i, AtRaise); }
    if i: nat :| WillSignal(s, i) { assert a.Lock? || a.Unlock? ==> WillSignal(s', i); }
    if i: nat :| WillPoke(s, i) { assert WillPoke(s', i); }
  }

  lemma KeepCore(s: Inbox, a: Step)
    requires Protocol(s) && Enabled(s, a)
    requires !a.InRing? && !a.Poke? && !a.Raise? && !a.Lock? && !a.Signal? && !a.Unlock?
    ensures Protocol(Next(s, a))
  {
    var s' := Next(s, a);
    if i: nat :| Is(s, i, AtRaise) { assert Is(s', i, AtRaise); }
    if i: nat :| WillSignal(s, i) { assert WillSignal(s', i); }
    if i: nat :| WillPoke(s, i) { assert WillPoke(s', i); }
  }

  lemma Keep(s: Inbox, a: Step)
    requires Inv(s) && Enabled(s, a)
    ensures Inv(Next(s, a))
  {
    match a
    case InRing(r) => KeepRing(s, r);
    case Poke(i) => KeepPoke(s, i);
    case Raise(i) => KeepRaise(s, i);
    case Lock(_) => KeepLocking(s, a);
    case Signal(_) => KeepLocking(s, a);
    case Unlock(_) => KeepLocking(s, a);
    case _ => KeepCore(s, a);
  }

  lemma {:induction false} KeepRun(s: Inbox, run: seq<Step>)
    requires Inv(s) && Exec(s, run).Some?
    ensures Inv(Exec(s, run).value)
    decreases |run|
  {
    if run != [] {
      Keep(s, run[0]);
      KeepRun(Next(s, run[0]), run[1..]);
    }
  }

  lemma ReachableInv(n: nat, posters: nat, s: Inbox)
    requires n >= 2 && Reachable(n, posters, s)
    ensures Inv(s)
  {
    var run :| Exec(Init(n, posters), run) == Some(s);
    R.InitInv(n, posters, 0);
    KeepRun(Init(n, posters), run);
  }

  // ------------------------------------------------------------ main results

  ghost predicate Quiet(s: Inbox)
  {
    forall i :: 0 <= i < |s.posters| ==> s.posters[i].Away?
  }

  /** No lost wake-up: with no poster inside `post_to_inbox` and something in the
      inbox, the core is neither asleep nor about to sleep; it is draining, or on
      its way to a drain, or its next look at `pending` will send it to one. */
  lemma NoLostWakeup(n: nat, posters: nat, s: Inbox)
    requires n >= 2 && Reachable(n, posters, s) && Quiet(s) && s.ring.tail < s.ring.head
    ensures !s.core.Asleep? && !s.core.AtWait?
    ensures s.core.Draining? || Committed(s.core) || s.pending
  {
    ReachableInv(n, posters, s);
    Pressed(s);
  }

  lemma Pressed(s: Inbox)
    requires Inv(s) && Quiet(s) && s.ring.tail < s.ring.head
    ensures !s.core.Asleep? && !s.core.AtWait?
    ensures s.core.Draining? || Committed(s.core) || s.pending
  {
    assert forall i: nat :: !Is(s, i, AtRaise) && !WillSignal(s, i) && !WillPoke(s, i);
  }

  /** A step the core takes by itself. */
  predicate CoreStep(a: Step)
  {
    if a.InRing? then IsPop(a.a)
    else !a.Poke? && !a.Raise? && !a.Lock? && !a.Signal? && !a.Unlock?
  }

  function CoreRank(c: Core): nat
  {
    match c
    case Asleep => 11 case Woken => 10
    case Busy => 9 case AtGlance => 8 case AtIdleLock => 7 case AtRecheck => 6 case AtWait => 5
    case AtIdleUnlock => 4 case Returned => 3 case AtDrain => 2 case Draining => 1
  }

  function PopRank(c: R.Consumer): nat
  {
    match c
    case AtTake(_) => 5 case AtFree(_) => 4 case Resting => 3 case AtCheck(_) => 2 case AtAdvance(_) => 1
  }

  /** An upper bound on the core's steps before the inbox is empty. */
  ghost function Distance(s: Inbox): int
  {
    100 * (s.ring.head - s.ring.tail) + 6 * CoreRank(s.core) + PopRank(s.ring.consumer)
  }

  lemma CoreCloser(s: Inbox, a: Step)
    requires Inv(s) && Quiet(s) && s.ring.tail < s.ring.head && CoreStep(a) && Enabled(s, a)
    ensures Inv(Next(s, a)) && Quiet(Next(s, a)) && Distance(Next(s, a)) < Distance(s)
    ensures Next(s, a).ring.tail <= Next(s, a).ring.head
  {
    Keep(s, a);
    Pressed(s);
    if a.InRing? {
      RingMoves(s.ring, a.a);
      RingCloser(s, a.a);
    }
    hide Inv, R.Cell, NextInRing;
  }

  lemma RingCloser(s: Inbox, a: R.Step)
    requires Inv(s) && Quiet(s) && s.ring.tail < s.ring.head && IsPop(a) && Enabled(s, InRing(a))
    ensures var r := NextInRing(s, a);
      Quiet(r) && Distance(r) < Distance(s) && r.ring.tail <= r.ring.head
  {
    assert forall i :: 0 <= i < |s.ring.producers| ==> s.ring.producers[i].Outside?;
    if a.PopCheck? { R.EmptySeen(s.ring); }
    if a.PopAdvance? { assert s.ring.consumer.pos == s.ring.tail; }
  }

  lemma CoreCanStep(s: Inbox) returns (a: Step)
    requires Inv(s) && Quiet(s) && s.ring.tail < s.ring.head
    ensures CoreStep(a) && Enabled(s, a)
  {
    Pressed(s);
    match s.core
    case Woken => a := Relock;
    case Busy => a := Reschedule;
    case AtGlance => a := Glance;
    case AtIdleLock => a := IdleLock;
    case AtRecheck => a := Recheck;
    case AtIdleUnlock => a := IdleUnlock;
    case Returned => a := Leave;
    case AtDrain => a := ClearPoke;
    case Draining =>
      match s.ring.consumer {
        case Resting => a := InRing(R.PopLoadTail);
        case AtCheck(_) => a := InRing(R.PopCheck);
        case AtAdvance(_) => a := InRing(R.PopAdvance);
        case AtTake(_) => a := InRing(R.PopTake);
        case AtFree(_) => a := InRing(R.PopFree);
      }
  }

  /** The run never passes through an empty inbox and only the core steps. */
  ghost predicate CoreOnlyNonempty(s: Inbox, run: seq<Step>)
    requires Shaped(s)
    decreases |run|
  {
    && s.ring.tail < s.ring.head
    && (run != [] ==> CoreStep(run[0]) && Enabled(s, run[0]) && CoreOnlyNonempty(Next(s, run[0]), run[1..]))
  }

  lemma {:induction false} DrainsFrom(s: Inbox, run: seq<Step>)
    requires Inv(s) && Quiet(s) && CoreOnlyNonempty(s, run)
    ensures |run| < Distance(s)
    ensures Exec(s, run).Some? && Shaped(Exec(s, run).value)
    ensures exists a :: CoreStep(a) && Enabled(Exec(s, run).value, a)
    decreases |run|
  {
    if run == [] {
      var a := CoreCanStep(s);
    } else {
      CoreCloser(s, run[0]);
      DrainsFrom(Next(s, run[0]), run[1..]);
    }
  }

  /** Left to itself, from every reachable state with no poster at work and whatever it
      chooses to do, the core empties the inbox: every run of its own steps that has not
      yet emptied it is shorter than the distance, and can be continued. */
  lemma CoreAloneDrains(n: nat, posters: nat, s: Inbox, run: seq<Step>)
    requires n >= 2 && Reachable(n, posters, s) && Quiet(s) && Shaped(s) && CoreOnlyNonempty(s, run)
    ensures |run| < Distance(s)
    ensures Exec(s, run).Some? && Shaped(Exec(s, run).value)
    ensures exists a :: CoreStep(a) && Enabled(Exec(s, run).value, a)
  {
    ReachableInv(n, posters, s);
    DrainsFrom(s, run);
  }

  // -------------------------------------------------------- interrupts and idling

  /** A poster goes on to interrupt the core. */
  ghost predicate Interrupts(s: Inbox, a: Step)
    requires Shaped(s) && Enabled(s, a)
  {
    a.Poke? && Next(s, a).posters[a.i].AtRaise?
  }

  ghost function InterruptCount(s: Inbox, run: seq<Step>): nat
    requires Shaped(s) && Exec(s, run).Some?
    decreases |run|
  {
    if run == [] then 0 else
      (if Interrupts(s, run[0]) then 1 else 0) + InterruptCount(Next(s, run[0]), run[1..])
  }

  function DrainCount(run: seq<Step>): nat
  {
    if run == [] then 0 else (if run[0].ClearPoke? then 1 else 0) + DrainCount(run[1..])
  }

  lemma {:induction false} InterruptsFrom(s: Inbox, run: seq<Step>)
    requires Shaped(s) && Exec(s, run).Some?
    ensures InterruptCount(s, run) <= DrainCount(run) + if s.poke then 0 else 1
    decreases |run|
  {
    if run != [] {
      InterruptsFrom(Next(s, run[0]), run[1..]);
    }
  }

  /** Posts are coalesced: over every run the core is interrupted at most once more often than it drains, however
      many posts there are. */
  lemma OneInterruptPerDrain(n: nat, posters: nat, run: seq<Step>)
    requires n > 0 && Exec(Init(n, posters), run).Some?
    ensures InterruptCount(Init(n, posters), run) <= DrainCount(run) + 1
  {
    InterruptsFrom(Init(n, posters), run);
  }

  function Count(run: seq<Step>, a: Step): nat
  {
    if run == [] then 0 else (if run[0] == a then 1 else 0) + Count(run[1..], a)
  }

  ghost function AtPokeNow(s: Inbox, i: nat): nat
  {
    if Is(s, i, AtPoke) then 1 else 0
  }

  lemma PokesStep(s: Inbox, a: Step, i: nat)
    requires Protocol(s) && Enabled(s, a) && i < |s.posters|
    ensures |Next(s, a).posters| == |s.posters|
    ensures (if a == Poke(i) then 1 else 0) + AtPokeNow(Next(s, a), i) ==
      (if a == InRing(R.Publish(i)) then 1 else 0) + AtPokeNow(s, i)
  {
    hide MutexInv, PokeInv, SleepInv, LeftoverInv, R.Cell;
    if a.InRing? {
      RingMoves(s.ring, a.a);
      hide R.Next;
    }
  }

  lemma {:induction false} PokesFrom(s: Inbox, run: seq<Step>, i: nat)
    requires Inv(s) && Exec(s, run).Some? && i < |s.posters|
    ensures Count(run, Poke(i)) + AtPokeNow(Exec(s, run).value, i) ==
      Count(run, InRing(R.Publish(i))) + AtPokeNow(s, i)
    decreases |run|
  {
    if run != [] {
      Keep(s, run[0]);
      PokesStep(s, run[0], i);
      hide Inv, Protocol, Enabled, Next, AtPokeNow;
      PokesFrom(Next(s, run[0]), run[1..], i);
    }
  }

  /** Every push that has succeeded is followed by one attempt to poke, and nothing else is: over every run, for
      every poster. */
  lemma EveryPostPokes(n: nat, posters: nat, run: seq<Step>, i: nat)
    requires n >= 2 && i < posters && Exec(Init(n, posters), run).Some?
    ensures Count(run, Poke(i)) + AtPokeNow(Exec(Init(n, posters), run).value, i) == Count(run, InRing(R.Publish(i)))
  {
    R.InitInv(n, posters, 0);
    PokesFrom(Init(n, posters), run, i);
  }

  /** Left alone in `cortos_port_idle`, the core goes to sleep if nothing is pending; else it consumes what is
      pending and goes on to drain. */
  lemma IdlesExactly(s: Inbox)
    requires Shaped(s) && s.core.AtGlance? && s.mutex.Nobody?
    ensures !s.pending ==> Exec(s, [Glance, IdleLock, Recheck, Wait]) == Some(s.(core := Asleep))
    ensures s.pending ==> Exec(s, [Glance, Leave]) == Some(s.(core := AtDrain, pending := false))
  {
    if s.pending {
      var s1 := Next(s, Glance);
      assert [Glance, Leave][1..] == [Leave] && [Leave][1..] == [];
      assert Exec(s1, [Leave]) == Exec(Next(s1, Leave), []);
    } else {
      var s1 := Next(s, Glance);
      var s2 := Next(s1, IdleLock);
      var s3 := Next(s2, Recheck);
      assert [Glance, IdleLock, Recheck, Wait][1..] == [IdleLock, Recheck, Wait];
      assert [IdleLock, Recheck, Wait][1..] == [Recheck, Wait] && [Recheck, Wait][1..] == [Wait] && [Wait][1..] == [];
      assert Exec(s3, [Wait]) == Exec(Next(s3, Wait), []);
      assert Exec(s2, [Recheck, Wait]) == Exec(s3, [Wait]);
      assert Exec(s1, [IdleLock, Recheck, Wait]) == Exec(s2, [Recheck, Wait]);
    }
  }
}
