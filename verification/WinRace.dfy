/** The race for one wait: any number of signals, from any cores, call `try_win` on the same
    `WaitGroup`. The flag is taken by compare-and-swap; the result fields are plain stores
    after it, and the waiter reads them once the winner has made it ready. */
module WinRace {

  datatype Phase = Trying | StoreIndex | StoreAcquired | Waking | Woke | Lost

  datatype Signal = Signal(index: int, acquired: bool, phase: Phase)

  datatype Race = Race(done: bool, winnerIndex: int, acquired: bool, signals: seq<Signal>)

  ghost predicate Enabled(s: Race, i: nat)
  {
    i < |s.signals| && s.signals[i].phase !in {Woke, Lost}
  }

  ghost function Move(s: Race, i: nat, p: Phase): Race
    requires i < |s.signals|
  {
    s.(signals := s.signals[i := s.signals[i].(phase := p)])
  }

  /** Signal i takes its next step. */
  ghost function Next(s: Race, i: nat): Race
    requires Enabled(s, i)
  {
    match s.signals[i].phase
    case Trying => if s.done then Move(s, i, Lost) else Move(s, i, StoreIndex).(done := true)
    case StoreIndex => Move(s, i, StoreAcquired).(winnerIndex := s.signals[i].index)
    case StoreAcquired => Move(s, i, Waking).(acquired := s.signals[i].acquired)
    case Waking => Move(s, i, Woke)
  }

  ghost predicate IsRun(s: Race, run: seq<nat>)
    decreases |run|
  {
    run != [] ==> Enabled(s, run[0]) && IsRun(Next(s, run[0]), run[1..])
  }

  ghost function Exec(s: Race, run: seq<nat>): Race
    requires IsRun(s, run)
    decreases |run|
  {
    if run == [] then s else Exec(Next(s, run[0]), run[1..])
  }

  /** After `begin`. */
  ghost predicate Initial(s: Race)
  {
    !s.done && forall i :: 0 <= i < |s.signals| ==> s.signals[i].phase == Trying
  }

  ghost predicate Winner(s: Race, i: nat)
  {
    i < |s.signals| && s.signals[i].phase !in {Trying, Lost}
  }

  /** What a winner has stored so far. */
  ghost predicate Stored(s: Race, i: nat)
    requires i < |s.signals|
  {
    var w := s.signals[i];
    && (w.phase in {StoreAcquired, Waking, Woke} ==> s.winnerIndex == w.index)
    && (w.phase in {Waking, Woke} ==> s.acquired == w.acquired)
  }

  ghost predicate Inv(s: Race)
  {
    && (forall i: nat, j: nat :: Winner(s, i) && Winner(s, j) ==> i == j)
    && (s.done <==> exists i: nat :: Winner(s, i))
    && (forall i :: 0 <= i < |s.signals| && s.signals[i].phase.Lost? ==> s.done)
    && (forall i :: 0 <= i < |s.signals| ==> Stored(s, i))
  }

  lemma Keep(s: Race, i: nat)
    requires Inv(s) && Enabled(s, i)
    ensures Inv(Next(s, i))
  {
    var r := Next(s, i);
    assert forall j: nat :: j != i ==> Winner(r, j) == Winner(s, j);
    if s.done {
      var w: nat :| Winner(s, w);
      assert Winner(r, w);
    } else {
      assert Winner(r, i);
    }
    forall j | 0 <= j < |r.signals| ensures Stored(r, j) {
      assert Stored(s, j);
      if j != i && Winner(s, i) { assert !Winner(s, j); }
    }
  }

  lemma {:induction false} KeepRun(s: Race, run: seq<nat>)
    requires Inv(s) && IsRun(s, run)
    ensures Inv(Exec(s, run)) && SameSignals(s, Exec(s, run))
    decreases |run|
  {
    if run != [] {
      Keep(s, run[0]);
      var r := Next(s, run[0]);
      assert SameSignals(s, r);
      hide Inv, Next, Enabled;
      KeepRun(r, run[1..]);
    }
  }

  ghost predicate SameSignals(s: Race, r: Race)
  {
    |r.signals| == |s.signals| && forall i :: 0 <= i < |s.signals| ==>
      r.signals[i].index == s.signals[i].index && r.signals[i].acquired == s.signals[i].acquired
  }

  /** In every state of every run there is at most one winner; when the signals have all finished there is
      exactly one, if there were any; and once a signal has woken the waiter, the result it reads is that
      signal's index and flag, whatever the losers do and from then on. */
  lemma OneWinner(s0: Race, run: seq<nat>)
    requires Initial(s0) && IsRun(s0, run)
    ensures var s := Exec(s0, run);
      && SameSignals(s0, s)
      && (forall i: nat, j: nat :: Winner(s, i) && Winner(s, j) ==> i == j)
      && ((forall i: nat :: !Enabled(s, i)) && s0.signals != [] ==>
         exists i: nat :: Winner(s, i) && s.signals[i].phase == Woke)
      && (forall i :: 0 <= i < |s.signals| && s.signals[i].phase == Woke ==>
            s.winnerIndex == s0.signals[i].index && s.acquired == s0.signals[i].acquired)
  {
    KeepRun(s0, run);
    var s := Exec(s0, run);
    if (forall i: nat :: !Enabled(s, i)) && s0.signals != [] {
      assert !Enabled(s, 0) && s.signals[0].phase in {Woke, Lost};
      assert s.signals[0].phase == Woke ==> Winner(s, 0);
      var i: nat :| Winner(s, i);
      assert !Enabled(s, i);
    }
    forall i | 0 <= i < |s.signals| && s.signals[i].phase == Woke
      ensures s.winnerIndex == s0.signals[i].index && s.acquired == s0.signals[i].acquired
    {
      assert Stored(s, i);
    }
  }
}
