/** `WaitableGroupLock` over `Spinlock`: any number of cores, each taking a set of
    locks in address order and releasing them in reverse. A step is one atomic
    access: raising the preemption depth, one test-and-set, clearing a flag, or
    lowering the depth. */
module GroupLock {
  import opened PriorityFifo

  /** Taking: the first `got` of `want` are held; `counted` once the depth has been raised
      for the next. Leaving: the first `left` are held; `cleared` between clearing a flag
      and lowering the depth. */
  datatype Phase =
    | Outside
    | Taking(want: seq<nat>, got: nat, counted: bool)
    | Inside(want: seq<nat>)
    | Leaving(want: seq<nat>, left: nat, cleared: bool)

  datatype Core = Core(phase: Phase, depth: nat)

  /** Locks are named by the address of their waitable; `locked` are the flags that are set. */
  datatype Locks = Locks(cores: seq<Core>, locked: set<nat>, crashed: bool)

  datatype Step =
    | Begin(c: nat, want: seq<nat>)
    | Disable(c: nat)
    | TestAndSet(c: nat)
    | Finish(c: nat)
    | Clear(c: nat)
    | Enable(c: nat)

  // ---------------------------------------------------------- the group's order

  ghost predicate Sorted(s: seq<nat>)
  {
    forall i, j :: 0 <= i < j < |s| ==> s[i] <= s[j]
  }

  predicate Ascending(s: seq<nat>)
  {
    forall i, j :: 0 <= i < j < |s| ==> s[i] < s[j]
  }

  /** The constructor's uniqueness check: each element against the one before it. */
  method NeighboursDiffer(s: seq<nat>) returns (ok: bool)
    ensures ok <==> forall i :: 1 <= i < |s| ==> s[i] != s[i - 1]
  {
    var i := 1;
    while i < |s|
      invariant 1 <= i && forall k :: 1 <= k < i && k < |s| ==> s[k] != s[k - 1]
    {
      if s[i] == s[i - 1] { return false; }
      i := i + 1;
    }
    return true;
  }

  /** On the sorted group the check passes exactly when the caller named no waitable twice,
      and the locks are then taken in strictly ascending order. */
  lemma UniqueExactly(given: seq<nat>, group: seq<nat>)
    requires multiset(given) == multiset(group) && Sorted(group)
    ensures (forall i :: 1 <= i < |group| ==> group[i] != group[i - 1]) <==> Distinct(given)
    ensures Distinct(given) <==> Ascending(group)
  {
    DistinctCounts(given);
    DistinctCounts(group);
    if forall i :: 1 <= i < |group| ==> group[i] != group[i - 1] {
      forall i, j | 0 <= i < j < |group| ensures group[i] < group[j] {
        assert group[j - 1] <= group[j] && group[i] <= group[j - 1];
      }
    }
  }

  lemma {:induction false} DistinctCounts(s: seq<nat>)
    ensures Distinct(s) <==> forall x :: x in multiset(s) ==> multiset(s)[x] == 1
    decreases |s|
  {
    if s != [] {
      var rest := s[1..];
      assert s == [s[0]] + rest;
      DistinctCounts(rest);
      if Distinct(s) {
        assert Distinct(rest) && s[0] !in rest;
      } else if Distinct(rest) {
        var i, j :| 0 <= i < j < |s| && s[i] == s[j];
        assert i == 0 && rest[j - 1] == s[0];
        assert multiset(s)[s[0]] >= 2;
      } else {
        var x :| x in multiset(rest) && multiset(rest)[x] != 1;
        assert multiset(s)[x] >= 2;
      }
    }
  }

  // -------------------------------------------------------------------- machine

  ghost predicate PhaseShaped(p: Phase)
  {
    match p
    case Outside => true
    case Taking(want, got, _) => got < |want|
    case Inside(want) => want != []
    case Leaving(want, left, cleared) => left <= |want| && (left == 0 ==> cleared)
  }

  ghost predicate Shaped(s: Locks)
  {
    forall c :: 0 <= c < |s.cores| ==> PhaseShaped(s.cores[c].phase)
  }

  /** A step that gets somewhere: all but a test-and-set that finds the flag set. */
  ghost predicate Progress(s: Locks, a: Step)
    requires Shaped(s)
  {
    && !s.crashed && a.c < |s.cores|
    && var p := s.cores[a.c].phase;
       match a
       case Begin(_, want) => p.Outside? && want != []
       case Disable(_) => p.Taking? && !p.counted
       case TestAndSet(_) => p.Taking? && p.counted && p.want[p.got] !in s.locked
       case Finish(_) => p.Inside?
       case Clear(_) => p.Leaving? && !p.cleared
       case Enable(_) => p.Leaving? && p.cleared
  }

  ghost predicate Spinning(s: Locks, c: nat)
    requires Shaped(s)
  {
    c < |s.cores| && s.cores[c].phase.Taking? && s.cores[c].phase.counted
    && s.cores[c].phase.want[s.cores[c].phase.got] in s.locked
  }

  ghost predicate Enabled(s: Locks, a: Step)
    requires Shaped(s)
  {
    Progress(s, a) || (!s.crashed && a.TestAndSet? && Spinning(s, a.c))
  }

  ghost function Move(s: Locks, c: nat, p: Phase): Locks
    requires c < |s.cores|
  {
    s.(cores := s.cores[c := s.cores[c].(phase := p)])
  }

  ghost function Next(s: Locks, a: Step): (r: Locks)
    requires Shaped(s) && Enabled(s, a)
    ensures Shaped(r)
  {
    var core := s.cores[a.c];
    match a
    case Begin(c, want) => Move(s, c, Taking(want, 0, false))
    case Disable(c) => s.(cores := s.cores[c := Core(core.phase.(counted := true), core.depth + 1)])
    case TestAndSet(c) =>
      var l := core.phase.want[core.phase.got];
      if l in s.locked then s
      else Move(s, c, Took(core.phase)).(locked := s.locked + {l})
    case Finish(c) => Move(s, c, Leaving(core.phase.want, |core.phase.want|, false))
    case Clear(c) =>
      var left := core.phase.left - 1;
      Move(s, c, Leaving(core.phase.want, left, true)).(locked := s.locked - {core.phase.want[left]})
    case Enable(c) =>
      if core.depth == 0 then s.(crashed := true)          // the assertion of enable_preemption
      else
        var p := if core.phase.left == 0 then Outside else core.phase.(cleared := false);
        s.(cores := s.cores[c := Core(p, core.depth - 1)])
  }

  ghost function Took(p: Phase): Phase
    requires p.Taking? && p.got < |p.want|
  {
    if p.got + 1 == |p.want| then Inside(p.want) else Taking(p.want, p.got + 1, false)
  }

  /** Every group is taken in the order the constructor sorted it into. */
  ghost predicate InOrder(a: Step)
  {
    a.Begin? ==> Ascending(a.want)
  }

  ghost predicate IsRun(s: Locks, run: seq<Step>)
    requires Shaped(s)
    decreases |run|
  {
    run != [] ==> Enabled(s, run[0]) && IsRun(Next(s, run[0]), run[1..])
  }

  ghost function Exec(s: Locks, run: seq<Step>): (r: Locks)
    requires Shaped(s) && IsRun(s, run)
    ensures Shaped(r)
    decreases |run|
  {
    if run == [] then s else Exec(Next(s, run[0]), run[1..])
  }

  ghost predicate AllOutside(s: Locks)
  {
    forall c :: 0 <= c < |s.cores| ==> s.cores[c].phase.Outside?
  }

  ghost predicate Initial(s: Locks)
  {
    AllOutside(s) && !s.crashed && s.locked == {} && forall c :: 0 <= c < |s.cores| ==> s.cores[c].depth == 0
  }

  // ------------------------------------------------------------------ invariant

  ghost function Held(p: Phase): seq<nat>
    requires PhaseShaped(p)
  {
    match p
    case Outside => []
    case Taking(want, got, _) => want[..got]
    case Inside(want) => want
    case Leaving(want, left, _) => want[..left]
  }

  /** A lock being spun for, or one whose flag is clear and whose count is not yet lowered. */
  ghost function InHand(p: Phase): nat
  {
    if (p.Taking? && p.counted) || (p.Leaving? && p.cleared) then 1 else 0
  }

  ghost predicate Wants(p: Phase)
  {
    !p.Outside? ==> Ascending(p.want)
  }

  ghost predicate CoreInv(core: Core)
  {
    PhaseShaped(core.phase) && Wants(core.phase) && core.depth == |Held(core.phase)| + InHand(core.phase)
  }

  ghost predicate Holds(s: Locks, c: nat, l: nat)
  {
    c < |s.cores| && PhaseShaped(s.cores[c].phase) && l in Held(s.cores[c].phase)
  }

  ghost predicate Inv(s: Locks)
  {
    && !s.crashed
    && (forall c :: 0 <= c < |s.cores| ==> CoreInv(s.cores[c]))
    && (forall c, d, l :: Holds(s, c, l) && Holds(s, d, l) ==> c == d)
    && (forall c, l :: Holds(s, c, l) ==> l in s.locked)
    && (forall l :: l in s.locked ==> exists c :: Holds(s, c, l))
  }

  /** Core c changes, and no lock changes hands. */
  lemma KeepSame(s: Locks, r: Locks, c: nat)
    requires Inv(s) && c < |s.cores| == |r.cores| && r == s.(cores := s.cores[c := r.cores[c]])
    requires CoreInv(r.cores[c]) && Held(r.cores[c].phase) == Held(s.cores[c].phase)
    ensures Inv(r)
  {
    assert forall d, l :: Holds(r, d, l) == Holds(s, d, l);
  }

  lemma KeepTake(s: Locks, r: Locks, c: nat, l: nat)
    requires Inv(s) && c < |s.cores| == |r.cores|
    requires r == s.(cores := s.cores[c := r.cores[c]], locked := s.locked + {l})
    requires CoreInv(r.cores[c]) && Held(r.cores[c].phase) == Held(s.cores[c].phase) + [l] && l !in s.locked
    ensures Inv(r)
  {
    forall d, k ensures Holds(r, d, k) <==> Holds(s, d, k) || (d == c && k == l) {}
    assert Holds(r, c, l);
  }

  lemma KeepGive(s: Locks, r: Locks, c: nat, l: nat)
    requires Inv(s) && c < |s.cores| == |r.cores|
    requires r == s.(cores := s.cores[c := r.cores[c]], locked := s.locked - {l})
    requires CoreInv(r.cores[c]) && Held(s.cores[c].phase) == Held(r.cores[c].phase) + [l]
    requires l !in Held(r.cores[c].phase)
    ensures Inv(r)
  {
    assert Holds(s, c, l);
    forall d, k ensures Holds(r, d, k) <==> Holds(s, d, k) && k != l {
      assert Holds(s, d, k) && k == l ==> d == c;
    }
    forall k | k in r.locked ensures exists d :: Holds(r, d, k) {
      var d :| Holds(s, d, k);
      assert Holds(r, d, k);
    }
  }

  lemma Keep(s: Locks, a: Step)
    requires Inv(s) && Shaped(s) && Enabled(s, a) && InOrder(a)
    ensures Inv(Next(s, a)) && |Next(s, a).cores| == |s.cores|
  {
    var r, c := Next(s, a), a.c;
    var p := s.cores[c].phase;
    assert CoreInv(s.cores[c]);
    match a
    case TestAndSet(_) =>
      if p.want[p.got] in s.locked {
        assert r == s;
      } else {
        assert p.want[..p.got + 1] == p.want[..p.got] + [p.want[p.got]];
        assert p.want[..|p.want|] == p.want;
        KeepTake(s, r, c, p.want[p.got]);
      }
    case Clear(_) =>
      assert p.want[..p.left] == p.want[..p.left - 1] + [p.want[p.left - 1]];
      KeepGive(s, r, c, p.want[p.left - 1]);
    case Finish(_) =>
      assert p.want[..|p.want|] == p.want;
      KeepSame(s, r, c);
    case _ =>
      KeepSame(s, r, c);
  }

  lemma {:induction false} KeepRun(s: Locks, run: seq<Step>)
    requires Inv(s) && Shaped(s) && IsRun(s, run) && forall a :: a in run ==> InOrder(a)
    ensures Inv(Exec(s, run)) && |Exec(s, run).cores| == |s.cores|
    decreases |run|
  {
    if run != [] {
      assert run[0] in run && forall a :: a in run[1..] ==> a in run;
      Keep(s, run[0]);
      hide Inv, Next, Enabled, InOrder;
      KeepRun(Next(s, run[0]), run[1..]);
    }
  }

  /** In every state of every run: no assertion has failed, a flag is set exactly when one core
      holds the lock, and a core's preemption depth is the number of locks it holds, plus the one
      it is spinning for or has only just cleared. */
  lemma LocksExact(s0: Locks, run: seq<Step>)
    requires Initial(s0) && IsRun(s0, run) && forall a :: a in run ==> InOrder(a)
    ensures var s := Exec(s0, run);
      && !s.crashed
      && (forall l :: l in s.locked <==> exists c :: Holds(s, c, l))
      && (forall c, d, l :: Holds(s, c, l) && Holds(s, d, l) ==> c == d)
      && (forall c :: 0 <= c < |s.cores| ==> s.cores[c].depth == |Held(s.cores[c].phase)| + InHand(s.cores[c].phase))
      && (forall c :: 0 <= c < |s.cores| ==> Distinct(Held(s.cores[c].phase)))
  {
    KeepRun(s0, run);
    var s := Exec(s0, run);
    forall c | 0 <= c < |s.cores|
      ensures s.cores[c].depth == |Held(s.cores[c].phase)| + InHand(s.cores[c].phase)
      ensures Distinct(Held(s.cores[c].phase))
    {
      assert CoreInv(s.cores[c]);
    }
  }

  // -------------------------------------------------------------- the whole group

  /** Core c is taking, holding or releasing exactly the group it asked for; it is outside only after it has
      been inside. */
  ghost predicate About(s: Locks, c: nat, want: seq<nat>, finished: bool)
  {
    && c < |s.cores| && var p := s.cores[c].phase;
       if p.Outside? || p.Leaving? then finished && (p.Leaving? ==> p.want == want) else p.want == want
  }

  lemma {:induction false} AboutRun(s: Locks, run: seq<Step>, c: nat, want: seq<nat>, finished: bool)
    requires Shaped(s) && IsRun(s, run) && About(s, c, want, finished)
    requires forall a :: a in run ==> !(a.Begin? && a.c == c)
    ensures About(Exec(s, run), c, want, finished || Finish(c) in run)
    decreases |run|
  {
    if run != [] {
      assert About(Next(s, run[0]), c, want, finished || run[0] == Finish(c));
      hide Enabled, Next, About;
      AboutRun(Next(s, run[0]), run[1..], c, want, finished || run[0] == Finish(c));
    }
  }

  /** In every run, from the construction of a group lock until the core's next: whenever the core is inside, it
      holds every lock of the group and no other core holds one; and it does not get out without having been
      inside, nor with a lock. */
  lemma InsideHoldsAll(s0: Locks, before: seq<Step>, s: Locks, c: nat, want: seq<nat>, run: seq<Step>, r: Locks)
    requires Initial(s0) && IsRun(s0, before) && (forall a :: a in before ==> InOrder(a)) && s == Exec(s0, before)
    requires Enabled(s, Begin(c, want)) && Ascending(want)
    requires IsRun(Next(s, Begin(c, want)), run) && r == Exec(Next(s, Begin(c, want)), run)
    requires forall a :: a in run ==> InOrder(a) && !(a.Begin? && a.c == c)
    ensures c < |r.cores|
    ensures r.cores[c].phase.Inside? ==> forall l :: l in want ==>
      Holds(r, c, l) && forall d :: Holds(r, d, l) ==> d == c
    ensures r.cores[c].phase.Outside? ==> Finish(c) in run && forall l :: !Holds(r, c, l)
  {
    KeepRun(s0, before);
    Keep(s, Begin(c, want));
    KeepRun(Next(s, Begin(c, want)), run);
    AboutRun(Next(s, Begin(c, want)), run, c, want, false);
  }

  // ---------------------------------------------------------- deadlock freedom

  ghost predicate CanStep(s: Locks, c: nat)
    requires Shaped(s)
  {
    exists a: Step :: a.c == c && !a.Begin? && Progress(s, a)
  }

  /** A core inside or on its way in or out either gets somewhere or is spinning. */
  lemma StepsOrSpins(s: Locks, c: nat)
    requires Inv(s) && Shaped(s) && c < |s.cores| && !s.cores[c].phase.Outside?
    ensures CanStep(s, c) || Spinning(s, c)
  {
    match s.cores[c].phase
    case Taking(_, _, counted) =>
      if !counted { assert Progress(s, Disable(c)); }
      else if !Spinning(s, c) { assert Progress(s, TestAndSet(c)); }
    case Inside(_) => assert Progress(s, Finish(c));
    case Leaving(_, _, cleared) =>
      if cleared { assert Progress(s, Enable(c)); } else { assert Progress(s, Clear(c)); }
  }

  /** Follow who holds what is waited for: the locks along the way only grow, so the way ends
      at a core that holds a lock and can step. */
  lemma {:induction false} HolderCanStep(s: Locks, c: nat, above: set<nat>) returns (d: nat, l: nat)
    requires Inv(s) && Shaped(s) && Spinning(s, c)
    requires above == set k | k in s.locked && k >= s.cores[c].phase.want[s.cores[c].phase.got]
    ensures Holds(s, d, l) && CanStep(s, d)
    decreases above
  {
    l := s.cores[c].phase.want[s.cores[c].phase.got];
    d :| Holds(s, d, l);
    StepsOrSpins(s, d);
    if !CanStep(s, d) {
      var p := s.cores[d].phase;
      assert CoreInv(s.cores[d]) && l in p.want[..p.got] && l < p.want[p.got];
      var higher := set k | k in s.locked && k >= p.want[p.got];
      assert higher < above by { assert l in above && l !in higher; }
      d, l := HolderCanStep(s, d, higher);
    }
  }

  ghost predicate Stuck(s: Locks)
    requires Shaped(s)
  {
    forall c :: 0 <= c < |s.cores| ==> !CanStep(s, c)
  }

  lemma StuckOutside(s: Locks)
    requires Inv(s) && Shaped(s)
    ensures Stuck(s) <==> AllOutside(s)
  {
    if c :| 0 <= c < |s.cores| && !s.cores[c].phase.Outside? {
      StepsOrSpins(s, c);
      if Spinning(s, c) {
        var d, l := HolderCanStep(s, c, set k | k in s.locked && k >= s.cores[c].phase.want[s.cores[c].phase.got]);
      }
    }
  }

  // ---------------------------------------------------------------- completion

  /** Steps a core has left until it is outside again. */
  ghost function Work(p: Phase): nat
    requires PhaseShaped(p)
  {
    match p
    case Outside => 0
    case Taking(want, got, counted) => 2 * (|want| - got) - (if counted then 1 else 0) + 1 + 2 * |want|
    case Inside(want) => 1 + 2 * |want|
    case Leaving(want, left, cleared) => 2 * left + if cleared then 1 else 0
  }

  ghost function TotalWork(cores: seq<Core>): nat
    requires forall c :: 0 <= c < |cores| ==> PhaseShaped(cores[c].phase)
  {
    if cores == [] then 0 else Work(cores[0].phase) + TotalWork(cores[1..])
  }

  lemma {:induction false} WorkOfOne(cores: seq<Core>, c: nat, core: Core)
    requires forall d :: 0 <= d < |cores| ==> PhaseShaped(cores[d].phase)
    requires c < |cores| && PhaseShaped(core.phase)
    ensures TotalWork(cores[c := core]) == TotalWork(cores) - Work(cores[c].phase) + Work(core.phase)
    decreases |cores|
  {
    if c == 0 {
      assert cores[c := core][1..] == cores[1..];
    } else {
      assert cores[c := core][1..] == cores[1..][c - 1 := core];
      WorkOfOne(cores[1..], c - 1, core);
    }
  }

  lemma {:induction false} NoWorkLeft(cores: seq<Core>)
    requires forall d :: 0 <= d < |cores| ==> PhaseShaped(cores[d].phase)
    ensures TotalWork(cores) == 0 <==> forall c :: 0 <= c < |cores| ==> cores[c].phase.Outside?
  {
    if cores != [] {
      NoWorkLeft(cores[1..]);
      assert forall c :: 1 <= c < |cores| ==> cores[c] == cores[1..][c - 1];
    }
  }

  lemma ProgressWorks(s: Locks, a: Step)
    requires Inv(s) && Shaped(s) && Progress(s, a) && !a.Begin?
    ensures TotalWork(Next(s, a).cores) == TotalWork(s.cores) - 1
  {
    assert CoreInv(s.cores[a.c]);
    WorkOfOne(s.cores, a.c, Next(s, a).cores[a.c]);
  }

  ghost predicate ProgressRun(s: Locks, run: seq<Step>)
    requires Shaped(s)
    decreases |run|
  {
    run != [] ==> Progress(s, run[0]) && !run[0].Begin? && ProgressRun(Next(s, run[0]), run[1..])
  }

  lemma {:induction false} ProgressIsRun(s: Locks, run: seq<Step>)
    requires Shaped(s) && ProgressRun(s, run)
    ensures IsRun(s, run) && forall a :: a in run ==> InOrder(a)
    decreases |run|
  {
    if run != [] { ProgressIsRun(Next(s, run[0]), run[1..]); }
  }

  lemma {:induction false} FinishFrom(s: Locks, run: seq<Step>)
    requires Inv(s) && Shaped(s) && ProgressRun(s, run)
    ensures IsRun(s, run) && |run| <= TotalWork(s.cores)
    ensures Stuck(Exec(s, run)) <==> |run| == TotalWork(s.cores)
    ensures Stuck(Exec(s, run)) <==> AllOutside(Exec(s, run))
    decreases |run|
  {
    ProgressIsRun(s, run);
    if run == [] {
      StuckOutside(s);
      NoWorkLeft(s.cores);
    } else {
      Keep(s, run[0]);
      ProgressWorks(s, run[0]);
      hide Inv, Next, Progress, Enabled, Stuck, AllOutside;
      FinishFrom(Next(s, run[0]), run[1..]);
    }
  }

  // --------------------------------------------------------------- over all runs

  /** In every state of every run: whenever a core spins, some core that holds a lock can get on. */
  lemma DeadlockFree(s0: Locks, run: seq<Step>, c: nat) returns (d: nat, l: nat)
    requires Initial(s0) && IsRun(s0, run) && (forall a :: a in run ==> InOrder(a)) && Spinning(Exec(s0, run), c)
    ensures Holds(Exec(s0, run), d, l) && CanStep(Exec(s0, run), d)
  {
    KeepRun(s0, run);
    var s := Exec(s0, run);
    d, l := HolderCanStep(s, c, set k | k in s.locked && k >= s.cores[c].phase.want[s.cores[c].phase.got]);
  }

  /** In every state of every run: nothing can get anywhere exactly when every core is outside. */
  lemma StuckExactly(s0: Locks, run: seq<Step>)
    requires Initial(s0) && IsRun(s0, run) && forall a :: a in run ==> InOrder(a)
    ensures Stuck(Exec(s0, run)) <==> AllOutside(Exec(s0, run))
  {
    KeepRun(s0, run);
    StuckOutside(Exec(s0, run));
  }

  /** From every state of every run: however the cores interleave, they finish what they have begun in exactly
      the same number of steps that get somewhere, and they can stop only when every core is outside. */
  lemma AllFinish(s0: Locks, run: seq<Step>, more: seq<Step>)
    requires Initial(s0) && IsRun(s0, run) && (forall a :: a in run ==> InOrder(a)) && ProgressRun(Exec(s0, run), more)
    ensures var s := Exec(s0, run);
      && IsRun(s, more) && |more| <= TotalWork(s.cores)
      && (Stuck(Exec(s, more)) <==> |more| == TotalWork(s.cores))
      && (Stuck(Exec(s, more)) <==> AllOutside(Exec(s, more)))
  {
    KeepRun(s0, run);
    FinishFrom(Exec(s0, run), more);
  }

  lemma TakesOne(s: Locks, c: nat) returns (r: Locks)
    requires Shaped(s) && !s.crashed && c < |s.cores| && s.cores[c].phase.Taking? && !s.cores[c].phase.counted
    requires var p := s.cores[c].phase;
      p.got + 1 < |p.want| && p.want[p.got] !in s.locked
    ensures Enabled(s, Disable(c)) && Enabled(Next(s, Disable(c)), TestAndSet(c))
    ensures r == Next(Next(s, Disable(c)), TestAndSet(c))
    ensures var p := s.cores[c].phase;
      && !r.crashed && r.locked == s.locked + {p.want[p.got]} && |r.cores| == |s.cores|
      && r.cores[c].phase == Taking(p.want, p.got + 1, false)
      && forall d :: 0 <= d < |s.cores| && d != c ==> r.cores[d] == s.cores[d]
  {
    r := Next(Next(s, Disable(c)), TestAndSet(c));
  }

  /** The order is what prevents deadlock: two cores naming the same two locks in opposite orders
      can end up both spinning, with nothing left that gets anywhere. */
  lemma UnorderedDeadlock(s: Locks, x: nat, y: nat) returns (run: seq<Step>)
    requires Initial(s) && |s.cores| == 2 && x != y
    ensures IsRun(s, run) && |run| >= 2 && run[..2] == [Begin(0, [x, y]), Begin(1, [y, x])]
    ensures Stuck(Exec(s, run)) && Spinning(Exec(s, run), 0) && Spinning(Exec(s, run), 1)
  {
    var a, b := Begin(0, [x, y]), Begin(1, [y, x]);
    run := [a, b, Disable(0), TestAndSet(0), Disable(1), TestAndSet(1), Disable(0), Disable(1)];
    var s2 := Next(Next(s, a), b);
    var s4 := TakesOne(s2, 0);
    var s6 := TakesOne(s4, 1);
    BothSpin(s6, x, y);
    hide Next, Enabled, Progress, Shaped, Stuck, Spinning, Initial;
    TwoSteps(s6, run[6..]);
    TwoSteps(s4, run[4..]);
    TwoSteps(s2, run[2..]);
    TwoSteps(s, run);
  }

  lemma BothSpin(s: Locks, x: nat, y: nat)
    requires Shaped(s) && !s.crashed && |s.cores| == 2 && s.locked == {x, y}
    requires s.cores[0].phase == Taking([x, y], 1, false) && s.cores[1].phase == Taking([y, x], 1, false)
    ensures Enabled(s, Disable(0)) && Enabled(Next(s, Disable(0)), Disable(1))
    ensures var r := Next(Next(s, Disable(0)), Disable(1));
      Spinning(r, 0) && Spinning(r, 1) && Stuck(r)
  {}

  lemma TwoSteps(s: Locks, run: seq<Step>)
    requires Shaped(s) && |run| >= 2 && Enabled(s, run[0]) && Enabled(Next(s, run[0]), run[1])
    requires IsRun(Next(Next(s, run[0]), run[1]), run[2..])
    ensures IsRun(s, run) && Exec(s, run) == Exec(Next(Next(s, run[0]), run[1]), run[2..])
  {
    assert run[1..][1..] == run[2..];
    assert IsRun(Next(s, run[0]), run[1..]);
  }
}
