/** The lock-free multi-producer single-consumer ring of `mpsc_ring_buffer.hpp`,
    as an interleaving of atomic accesses: one step per load, store or
    compare-exchange, any number of producers, one consumer, any number of
    `approx_size` observers. Atomics are sequentially consistent and the
    position counters do not wrap. */
module Ring {
  import opened Options
  import Numbers

  // Elements are moved, never inspected, so any infinite type will do.
  type Item = nat

  /** Where a producer is inside `push(v)`. */
  datatype Producer =
    | Outside
    | AtLoadSequence(v: Item, pos: nat)   // `position` holds pos
    | AtReload(v: Item)                   // diff > 0: about to reload head
    | AtClaim(v: Item, pos: nat)          // diff == 0: about to compare-exchange head
    | AtConstruct(v: Item, pos: nat)      // claimed: about to write the storage
    | AtPublish(v: Item, pos: nat)        // written: about to store the sequence

  /** Where the consumer is inside `pop`. */
  datatype Consumer =
    | Resting
    | AtCheck(pos: nat)                   // tail loaded
    | AtAdvance(pos: nat)                 // diff == 0: about to store tail
    | AtTake(pos: nat)                    // about to move the element out
    | AtFree(pos: nat)                    // about to free the cell

  /** Where an observer is inside `approx_size`. */
  datatype Observer =
    | NotLooking
    | SawHead(h: nat)
    | Reported(size: nat)

  datatype Ring = Ring(
    n: nat,
    head: nat,
    tail: nat,
    sequence: seq<nat>,
    storage: seq<Option<Item>>,           // None: no live element in the cell
    producers: seq<Producer>,
    consumer: Consumer,
    observers: seq<Observer>,
    // History: elements in the order their positions were claimed, and in the
    // order they were handed to the consumer.
    claimed: seq<Item>,
    popped: seq<Option<Item>>
  )

  datatype Step =
    | LoadHead(i: nat, v: Item)
    | LoadSequence(i: nat)
    | Reload(i: nat)
    | Claim(i: nat, spurious: bool)
    | Construct(i: nat)
    | Publish(i: nat)
    | PopLoadTail
    | PopCheck
    | PopAdvance
    | PopTake
    | PopFree
    | SizeLoadHead(o: nat)
    | SizeLoadTail(o: nat)

  /** The constructor: cell k starts with sequence k. */
  function Init(n: nat, producers: nat, observers: nat): Ring
  {
    Ring(n, 0, 0, seq(n, k => k), seq(n, _ => None), seq(producers, _ => Outside), Resting,
         seq(observers, _ => NotLooking), [], [])
  }

  ghost predicate Shaped(s: Ring)
  {
    && s.n > 0
    && |s.sequence| == s.n
    && |s.storage| == s.n
  }

  /** `position & mask`; `Bits.MaskIsRemainder` relates the two forms. */
  function Cell(s: Ring, pos: nat): (c: nat)
    requires s.n > 0
    ensures c < s.n
  {
    pos % s.n
  }

  ghost predicate Enabled(s: Ring, a: Step)
    requires Shaped(s)
  {
    match a
    case LoadHead(i, _) => i < |s.producers| && s.producers[i].Outside?
    case LoadSequence(i) => i < |s.producers| && s.producers[i].AtLoadSequence?
    case Reload(i) => i < |s.producers| && s.producers[i].AtReload?
    case Claim(i, _) => i < |s.producers| && s.producers[i].AtClaim?
    case Construct(i) => i < |s.producers| && s.producers[i].AtConstruct?
    case Publish(i) => i < |s.producers| && s.producers[i].AtPublish?
    case PopLoadTail => s.consumer.Resting?
    case PopCheck => s.consumer.AtCheck?
    case PopAdvance => s.consumer.AtAdvance?
    case PopTake => s.consumer.AtTake?
    case PopFree => s.consumer.AtFree?
    case SizeLoadHead(o) => o < |s.observers|
    case SizeLoadTail(o) => o < |s.observers| && s.observers[o].SawHead?
  }

  ghost function At(s: Ring, i: nat, p: Producer): Ring
    requires i < |s.producers|
  {
    s.(producers := s.producers[i := p])
  }

  ghost function Next(s: Ring, a: Step): Ring
    requires Shaped(s) && Enabled(s, a)
  {
    match a
    case LoadHead(i, v) => At(s, i, AtLoadSequence(v, s.head))
    case LoadSequence(i) =>
      var p := s.producers[i];
      var q := s.sequence[Cell(s, p.pos)];
      if q == p.pos then At(s, i, AtClaim(p.v, p.pos))
      else if q < p.pos then At(s, i, Outside)                 // push returns false
      else At(s, i, AtReload(p.v))
    case Reload(i) => At(s, i, AtLoadSequence(s.producers[i].v, s.head))
    case Claim(i, spurious) =>
      var p := s.producers[i];
      if s.head == p.pos && !spurious then
        At(s, i, AtConstruct(p.v, p.pos)).(head := s.head + 1, claimed := s.claimed + [p.v])
      else
        At(s, i, AtLoadSequence(p.v, s.head))
    case Construct(i) =>
      var p := s.producers[i];
      At(s, i, AtPublish(p.v, p.pos)).(storage := s.storage[Cell(s, p.pos) := Some(p.v)])
    case Publish(i) =>                                         // push returns true
      var p := s.producers[i];
      At(s, i, Outside).(sequence := s.sequence[Cell(s, p.pos) := p.pos + 1])
    case PopLoadTail => s.(consumer := AtCheck(s.tail))
    case PopCheck =>
      var pos := s.consumer.pos;
      if s.sequence[Cell(s, pos)] == pos + 1 then s.(consumer := AtAdvance(pos))
      else s.(consumer := Resting)                             // pop returns false
    case PopAdvance => s.(consumer := AtTake(s.consumer.pos), tail := s.consumer.pos + 1)
    case PopTake =>
      var c := Cell(s, s.consumer.pos);
      s.(consumer := AtFree(s.consumer.pos), popped := s.popped + [s.storage[c]], storage := s.storage[c := None])
    case PopFree =>                                            // pop returns true
      s.(consumer := Resting, sequence := s.sequence[Cell(s, s.consumer.pos) := s.consumer.pos + s.n])
    case SizeLoadHead(o) => s.(observers := s.observers[o := SawHead(s.head)])
    case SizeLoadTail(o) =>
      var h := s.observers[o].h;
      s.(observers := s.observers[o := Reported(if h >= s.tail then h - s.tail else 0)])
  }

  lemma NextShaped(s: Ring, a: Step)
    requires Shaped(s) && Enabled(s, a)
    ensures Shaped(Next(s, a))
  {}

  /** The state after a run, or None when a step was not enabled where it came. */
  ghost function Exec(s: Ring, run: seq<Step>): Option<Ring>
    requires Shaped(s)
    decreases |run|
  {
    if run == [] then Some(s)
    else if !Enabled(s, run[0]) then None
    else
      NextShaped(s, run[0]);
      Exec(Next(s, run[0]), run[1..])
  }

  ghost predicate Reachable(n: nat, producers: nat, observers: nat, s: Ring)
    requires n > 0
  {
    exists run :: Exec(Init(n, producers, observers), run) == Some(s)
  }

  // ---------------------------------------------------------------- invariant

  /** Positions below this one have had their cell freed. */
  ghost function Freed(s: Ring): int
  {
    if s.consumer.AtTake? || s.consumer.AtFree? then s.tail - 1 else s.tail
  }

  /** Claimed positions whose cell the consumer has not freed. */
  ghost function Occupancy(s: Ring): int
  {
    s.head - Freed(s)
  }

  predicate Claimant(p: Producer)
  {
    p.AtConstruct? || p.AtPublish?
  }

  predicate Holds(p: Producer, pos: int)
  {
    Claimant(p) && p.pos == pos
  }

  /** Some producer has claimed pos and not yet published it. */
  ghost predicate InFlight(s: Ring, pos: int)
  {
    exists i :: 0 <= i < |s.producers| && Holds(s.producers[i], pos)
  }

  ghost predicate CellInv(s: Ring, pos: int)
    requires Shaped(s) && 0 <= pos && |s.claimed| == s.head
  {
    var c := Cell(s, pos);
    if pos >= s.head then s.sequence[c] == pos && s.storage[c] == None
    else if s.sequence[c] == pos then InFlight(s, pos)
    else
      && s.sequence[c] == pos + 1
      && !InFlight(s, pos)
      && s.storage[c] == (if s.consumer == AtFree(pos) then None else Some(s.claimed[pos]))
  }

  ghost predicate ProducerInv(s: Ring, p: Producer)
    requires Shaped(s) && |s.claimed| == s.head
  {
    match p
    case Outside => true
    case AtReload(_) => true
    case AtLoadSequence(_, pos) => pos <= s.head
    case AtClaim(_, pos) => pos <= s.head && pos < Freed(s) + s.n
    case AtConstruct(v, pos) =>
      && Freed(s) <= pos < s.head && s.claimed[pos] == v && s.sequence[Cell(s, pos)] == pos
      && s.storage[Cell(s, pos)] == None                       // no live element is overwritten
    case AtPublish(v, pos) =>
      && Freed(s) <= pos < s.head && s.claimed[pos] == v && s.sequence[Cell(s, pos)] == pos
      && s.storage[Cell(s, pos)] == Some(v)
  }

  ghost predicate ConsumerInv(s: Ring)
    requires Shaped(s)
  {
    match s.consumer
    case Resting => true
    case AtCheck(pos) => pos == s.tail
    case AtAdvance(pos) => pos == s.tail < s.head && s.sequence[Cell(s, pos)] == pos + 1
    case AtTake(pos) => pos + 1 == s.tail <= s.head && s.sequence[Cell(s, pos)] == pos + 1
    case AtFree(pos) => pos + 1 == s.tail <= s.head && s.sequence[Cell(s, pos)] == pos + 1
  }

  ghost predicate ObserverInv(s: Ring, o: Observer)
  {
    match o
    case NotLooking => true
    case SawHead(h) => h <= s.tail + s.n
    case Reported(size) => size <= s.n
  }

  /** What the consumer has been handed is exactly the claim order so far. */
  ghost predicate History(s: Ring)
  {
    && |s.popped| == (if s.consumer.AtTake? then s.tail - 1 else s.tail)
    && |s.popped| <= |s.claimed|
    && forall k :: 0 <= k < |s.popped| ==> s.popped[k] == Some(s.claimed[k])
  }

  /** No two producers hold the same position. */
  ghost predicate NoneShared(s: Ring)
  {
    forall i, j :: 0 <= i < j < |s.producers| && Claimant(s.producers[i]) && Claimant(s.producers[j])
      ==> s.producers[i].pos != s.producers[j].pos
  }

  ghost predicate Inv(s: Ring)
  {
    && Shaped(s)
    && s.n >= 2
    && |s.claimed| == s.head
    && 0 <= Freed(s) <= s.head <= Freed(s) + s.n
    && ConsumerInv(s)
    && (forall pos :: Freed(s) <= pos < Freed(s) + s.n ==> CellInv(s, pos))
    && (forall i :: 0 <= i < |s.producers| ==> ProducerInv(s, s.producers[i]))
    && NoneShared(s)
    && (forall o :: 0 <= o < |s.observers| ==> ObserverInv(s, s.observers[o]))
    && History(s)
  }


  // --------------------------------------------------------------- each step

  /** What a producer finds at a position it loaded earlier: only at the very
      head of a full ring is the sequence behind it. */
  lemma SequenceSeen(s: Ring, pos: nat)
    requires Inv(s) && pos <= s.head
    ensures s.sequence[Cell(s, pos)] < pos <==> (pos == s.head && Occupancy(s) == s.n)
    ensures s.sequence[Cell(s, pos)] == pos ==> pos < Freed(s) + s.n
    ensures s.sequence[Cell(s, pos)] > pos ==> pos < s.head    // someone else has claimed since
  {
    var f := Freed(s);
    if pos < f {
      var q := Numbers.Namesake(pos, f, s.n);
      assert CellInv(s, q);
    } else if pos < f + s.n {
      assert CellInv(s, pos);
    } else {
      Numbers.NextLap(f, s.n);
      assert CellInv(s, f);
    }
  }

  /** A producer that holds no position before or after moves nothing else. */
  lemma KeepMove(s: Ring, i: nat, p: Producer)
    requires Inv(s) && i < |s.producers| && !Claimant(s.producers[i])
    requires !Claimant(p) && ProducerInv(s, p)
    ensures Inv(At(s, i, p))
  {
    var s' := At(s, i, p);
    forall pos: int | Freed(s') <= pos < Freed(s') + s'.n
      ensures CellInv(s', pos)
    {
      assert CellInv(s, pos);
      SameFlight(s, s', i, pos);
    }
  }

  /** Whether a position is in flight depends only on who holds it. */
  lemma SameFlight(s: Ring, s': Ring, i: nat, pos: int)
    requires i < |s.producers| == |s'.producers| && s'.producers == s.producers[i := s'.producers[i]]
    requires Holds(s'.producers[i], pos) == Holds(s.producers[i], pos)
    ensures InFlight(s', pos) == InFlight(s, pos)
  {
    if InFlight(s, pos) {
      var j :| 0 <= j < |s.producers| && Holds(s.producers[j], pos);
      assert Holds(s'.producers[j], pos);
    }
    if InFlight(s', pos) {
      var j :| 0 <= j < |s'.producers| && Holds(s'.producers[j], pos);
      assert Holds(s.producers[j], pos);
    }
  }

  lemma KeepLoadSequence(s: Ring, i: nat)
    requires Inv(s) && Enabled(s, LoadSequence(i))
    ensures Inv(Next(s, LoadSequence(i)))
  {
    var p := s.producers[i];
    SequenceSeen(s, p.pos);
    var q := s.sequence[Cell(s, p.pos)];
    KeepMove(s, i, if q == p.pos then AtClaim(p.v, p.pos) else if q < p.pos then Outside else AtReload(p.v));
  }

  lemma KeepClaim(s: Ring, i: nat, spurious: bool)
    requires Inv(s) && Enabled(s, Claim(i, spurious))
    ensures Inv(Next(s, Claim(i, spurious)))
  {
    var p := s.producers[i];
    if s.head == p.pos && !spurious {
      var s' := Next(s, Claim(i, spurious));
      assert CellInv(s, p.pos);
      assert Holds(s'.producers[i], p.pos);
      forall pos: int | Freed(s') <= pos < Freed(s') + s'.n
        ensures CellInv(s', pos)
      {
        assert CellInv(s, pos);
        if pos != p.pos { SameFlight(s, s', i, pos); }
      }
    } else {
      KeepMove(s, i, AtLoadSequence(p.v, s.head));
    }
  }

  lemma KeepConstruct(s: Ring, i: nat)
    requires Inv(s) && Enabled(s, Construct(i))
    ensures Inv(Next(s, Construct(i)))
  {
    var p := s.producers[i];
    var s' := Next(s, Construct(i));
    OtherCells(s, p.pos);
    assert Holds(s.producers[i], p.pos);
    forall pos: int | Freed(s') <= pos < Freed(s') + s'.n
      ensures CellInv(s', pos)
    {
      assert CellInv(s, pos);
      SameFlight(s, s', i, pos);
    }
  }

  lemma KeepPublish(s: Ring, i: nat)
    requires Inv(s) && Enabled(s, Publish(i))
    ensures Inv(Next(s, Publish(i)))
  {
    var p := s.producers[i];
    var s' := Next(s, Publish(i));
    OtherCells(s, p.pos);
    forall pos: int | Freed(s') <= pos < Freed(s') + s'.n
      ensures CellInv(s', pos)
    {
      assert CellInv(s, pos);
      if pos != p.pos { SameFlight(s, s', i, pos); }
    }
  }

  /** Unfreed positions live in cells of their own. */
  lemma OtherCells(s: Ring, pos: nat)
    requires Inv(s) && Freed(s) <= pos < Freed(s) + s.n
    ensures forall q: nat :: Freed(s) <= q < Freed(s) + s.n && q != pos ==> Cell(s, q) != Cell(s, pos)
  {
    forall q: nat | Freed(s) <= q < Freed(s) + s.n && Cell(s, q) == Cell(s, pos)
      ensures q == pos
    {
      if q <= pos { Numbers.SameRemainder(q, pos, s.n); } else { Numbers.SameRemainder(pos, q, s.n); }
    }
  }

  lemma KeepPopCheck(s: Ring)
    requires Inv(s) && Enabled(s, PopCheck)
    ensures Inv(Next(s, PopCheck))
  {
    var s' := Next(s, PopCheck);
    assert CellInv(s, s.tail);
    forall pos: int | Freed(s') <= pos < Freed(s') + s'.n
      ensures CellInv(s', pos)
    {
      assert CellInv(s, pos);
      assert InFlight(s', pos) == InFlight(s, pos);
    }
  }

  lemma KeepPopTake(s: Ring)
    requires Inv(s) && Enabled(s, PopTake)
    ensures Inv(Next(s, PopTake))
  {
    var s' := Next(s, PopTake);
    OtherCells(s, s.consumer.pos);
    assert CellInv(s, s.consumer.pos);
    forall pos: int | Freed(s') <= pos < Freed(s') + s'.n
      ensures CellInv(s', pos)
    {
      assert CellInv(s, pos);
      assert InFlight(s', pos) == InFlight(s, pos);
    }
  }

  lemma KeepPopFree(s: Ring)
    requires Inv(s) && Enabled(s, PopFree)
    ensures Inv(Next(s, PopFree))
  {
    var s' := Next(s, PopFree);
    var f := s.consumer.pos;
    OtherCells(s, f);
    Numbers.NextLap(f, s.n);
    assert CellInv(s, f);
    forall pos: int | Freed(s') <= pos < Freed(s') + s'.n
      ensures CellInv(s', pos)
    {
      assert InFlight(s', pos) == InFlight(s, pos);
      if pos < f + s.n { assert CellInv(s, pos); }
    }
  }

  /** Steps that write only a program counter, the tail or an observer. */
  lemma KeepOthers(s: Ring, a: Step)
    requires Inv(s) && Enabled(s, a)
    requires a.PopLoadTail? || a.PopAdvance? || a.SizeLoadHead? || a.SizeLoadTail?
    ensures Inv(Next(s, a))
  {
    var s' := Next(s, a);
    forall pos: int | Freed(s') <= pos < Freed(s') + s'.n
      ensures CellInv(s', pos)
    {
      assert CellInv(s, pos);
      assert InFlight(s', pos) == InFlight(s, pos);
    }
  }

  lemma Keep(s: Ring, a: Step)
    requires Inv(s) && Enabled(s, a)
    ensures Inv(Next(s, a))
  {
    match a
    case LoadHead(i, v) => KeepMove(s, i, AtLoadSequence(v, s.head));
    case LoadSequence(i) => KeepLoadSequence(s, i);
    case Reload(i) => KeepMove(s, i, AtLoadSequence(s.producers[i].v, s.head));
    case Claim(i, spurious) => KeepClaim(s, i, spurious);
    case Construct(i) => KeepConstruct(s, i);
    case Publish(i) => KeepPublish(s, i);
    case PopCheck => KeepPopCheck(s);
    case PopTake => KeepPopTake(s);
    case PopFree => KeepPopFree(s);
    case _ => KeepOthers(s, a);
  }

  // ---------------------------------------------------------------- all runs

  lemma InitInv(n: nat, producers: nat, observers: nat)
    requires n >= 2
    ensures Inv(Init(n, producers, observers))
  {
    var s := Init(n, producers, observers);
    forall pos: int | Freed(s) <= pos < Freed(s) + s.n
      ensures CellInv(s, pos)
    {
      Numbers.DivUnique(pos, n, 0, pos);
    }
  }

  lemma {:induction false} KeepRun(s: Ring, run: seq<Step>)
    requires Inv(s) && Exec(s, run).Some?
    ensures Inv(Exec(s, run).value)
    decreases |run|
  {
    if run != [] {
      Keep(s, run[0]);
      KeepRun(Next(s, run[0]), run[1..]);
    }
  }

  lemma ReachableInv(n: nat, producers: nat, observers: nat, s: Ring)
    requires n >= 2 && Reachable(n, producers, observers, s)
    ensures Inv(s) && s.n == n
  {
    var run :| Exec(Init(n, producers, observers), run) == Some(s);
    InitInv(n, producers, observers);
    KeepRun(Init(n, producers, observers), run);
    SameSize(Init(n, producers, observers), run);
  }

  lemma {:induction false} SameSize(s: Ring, run: seq<Step>)
    requires Shaped(s) && Exec(s, run).Some?
    ensures Exec(s, run).value.n == s.n
    decreases |run|
  {
    if run != [] {
      NextShaped(s, run[0]);
      SameSize(Next(s, run[0]), run[1..]);
    }
  }

  lemma {:induction false} ExecSnoc(s: Ring, run: seq<Step>, a: Step)
    requires Shaped(s) && Exec(s, run).Some?
    requires Shaped(Exec(s, run).value) && Enabled(Exec(s, run).value, a)
    ensures Exec(s, run + [a]) == Some(Next(Exec(s, run).value, a))
    decreases |run|
  {
    if run == [] {
      NextShaped(s, a);
      assert Exec(Next(s, a), []) == Some(Next(s, a));
      assert [a][1..] == [];
    } else {
      NextShaped(s, run[0]);
      assert (run + [a])[1..] == run[1..] + [a];
      ExecSnoc(Next(s, run[0]), run[1..], a);
    }
  }

  lemma ReachableNext(n: nat, producers: nat, observers: nat, s: Ring, a: Step)
    requires n > 0 && Reachable(n, producers, observers, s) && Shaped(s) && Enabled(s, a)
    ensures Reachable(n, producers, observers, Next(s, a))
  {
    var run :| Exec(Init(n, producers, observers), run) == Some(s);
    ExecSnoc(Init(n, producers, observers), run, a);
  }

  // ------------------------------------------------------------ main results

  /** The consumer has been handed a prefix of the claim order: nothing lost,
      duplicated, reordered, or read where no element was live. */
  ghost predicate Delivers(s: Ring)
  {
    && |s.popped| <= |s.claimed|
    && forall k :: 0 <= k < |s.popped| ==> s.popped[k] == Some(s.claimed[k])
  }

  ghost predicate SafeCapacity(n: nat)
    requires n > 0
  {
    forall producers: nat, observers: nat, s: Ring ::
      Reachable(n, producers, observers, s) ==> Delivers(s)
  }

  /** The static assertions admit every power of two. Over all interleavings the
      ring delivers exactly when its capacity is at least two. */
  lemma DeliversExactlyFromTwo(n: nat)
    requires n > 0
    ensures SafeCapacity(n) <==> n >= 2
  {
    if n >= 2 {
      forall producers: nat, observers: nat, s: Ring | Reachable(n, producers, observers, s)
        ensures Delivers(s)
      {
        ReachableInv(n, producers, observers, s);
      }
    } else {
      var s := Overwrite();
      assert s.popped[0] != Some(s.claimed[0]);
    }
  }

  lemma Do(s: Ring, a: Step) returns (s': Ring)
    requires Reachable(1, 2, 0, s) && Shaped(s) && Enabled(s, a)
    ensures Reachable(1, 2, 0, s') && Shaped(s') && s' == Next(s, a)
  {
    s' := Next(s, a);
    ReachableNext(1, 2, 0, s, a);
  }

  lemma FirstPush() returns (s: Ring)
    ensures Reachable(1, 2, 0, s)
    ensures s == Ring(1, 1, 0, [1], [Some(7)], [Outside, Outside], Resting, [], [7], [])
  {
    s := Init(1, 2, 0);
    assert Exec(s, []) == Some(s);
    assert s == Ring(1, 0, 0, [0], [None], [Outside, Outside], Resting, [], [], []);
    s := Do(s, LoadHead(0, 7));
    s := Do(s, LoadSequence(0));
    s := Do(s, Claim(0, false));
    s := Do(s, Construct(0));
    s := Do(s, Publish(0));
  }

  /** With one cell, "published" (position + 1) and "freed" (position + N) are
      the same number, so a second producer overwrites the unread first element. */
  lemma Overwrite() returns (s: Ring)
    ensures Reachable(1, 2, 0, s) && s.claimed == [7, 8] && s.popped == [Some(8)]
  {
    s := FirstPush();
    s := Do(s, LoadHead(1, 8));
    s := Do(s, LoadSequence(1));
    s := Do(s, Claim(1, false));
    s := Do(s, Construct(1));
    assert s == Ring(1, 2, 0, [1], [Some(8)], [Outside, AtPublish(8, 1)], Resting, [], [7, 8], []);
    s := Do(s, PopLoadTail);
    s := Do(s, PopCheck);
    s := Do(s, PopAdvance);
    s := Do(s, PopTake);
  }

  /** Claimed-minus-freed is a true occupancy, `approx_size` never exceeds the
      capacity although its two loads happen at different moments, and a slot
      being constructed never holds a live element. */
  lemma OccupancyExact(n: nat, producers: nat, observers: nat, s: Ring)
    requires n >= 2 && Reachable(n, producers, observers, s)
    ensures 0 <= Occupancy(s) <= n
    ensures forall o :: 0 <= o < |s.observers| && s.observers[o].Reported? ==> s.observers[o].size <= n
    ensures |s.storage| == n
    ensures forall i :: 0 <= i < |s.producers| && s.producers[i].AtConstruct? ==>
      s.storage[s.producers[i].pos % n] == None
  {
    ReachableInv(n, producers, observers, s);
  }

  /** `push` returns false exactly when it looked at the head position of a ring
      holding n claimed-and-unfreed positions; and it retries only when another
      producer has claimed the position it was working from. */
  lemma FullExactly(n: nat, producers: nat, observers: nat, s: Ring, i: nat)
    requires n >= 2 && Reachable(n, producers, observers, s) && Shaped(s) && Enabled(s, LoadSequence(i))
    ensures Next(s, LoadSequence(i)).producers[i] == Outside
       <==> s.producers[i].pos == s.head && Occupancy(s) == n
    ensures Next(s, LoadSequence(i)).producers[i].AtReload? ==> s.producers[i].pos < s.head
  {
    ReachableInv(n, producers, observers, s);
    SequenceSeen(s, s.producers[i].pos);
  }

  /** `pop` returns false exactly when everything claimed has been popped or the
      oldest unpopped position is still being written. */
  lemma EmptyExactly(n: nat, producers: nat, observers: nat, s: Ring)
    requires n >= 2 && Reachable(n, producers, observers, s) && Shaped(s) && Enabled(s, PopCheck)
    ensures Next(s, PopCheck).consumer.Resting? <==> s.tail == s.head || InFlight(s, s.tail)
  {
    ReachableInv(n, producers, observers, s);
    EmptySeen(s);
  }

  lemma EmptySeen(s: Ring)
    requires Inv(s) && Enabled(s, PopCheck)
    ensures Next(s, PopCheck).consumer.Resting? <==> s.tail == s.head || InFlight(s, s.tail)
  {
    assert CellInv(s, s.tail);
  }

  /** The step is not one of observer o. */
  predicate NotBy(a: Step, o: nat)
  {
    (a.SizeLoadHead? || a.SizeLoadTail?) ==> a.o != o
  }

  lemma {:induction false} ObserverStays(s: Ring, run: seq<Step>, o: nat)
    requires Shaped(s) && Exec(s, run).Some? && o < |s.observers| && forall a :: a in run ==> NotBy(a, o)
    ensures Shaped(Exec(s, run).value) && o < |Exec(s, run).value.observers|
    ensures Exec(s, run).value.observers[o] == s.observers[o]
    decreases |run|
  {
    if run != [] {
      NextShaped(s, run[0]);
      assert NotBy(run[0], o);
      assert Next(s, run[0]).observers[o] == s.observers[o];
      hide Enabled, Next;
      ObserverStays(Next(s, run[0]), run[1..], o);
    }
  }

  /** `approx_size` reports the claims at its first load less the tail at its second, or 0 if that is less than
      nothing; so it is exact when nothing happens in between. */
  lemma SizeExactly(n: nat, producers: nat, observers: nat, s: Ring, o: nat, between: seq<Step>, m: Ring)
    requires n >= 2 && Reachable(n, producers, observers, s) && o < |s.observers| && Shaped(s)
    requires Shaped(Next(s, SizeLoadHead(o))) && Exec(Next(s, SizeLoadHead(o)), between) == Some(m)
    requires forall a :: a in between ==> NotBy(a, o)
    ensures Shaped(m) && Enabled(m, SizeLoadTail(o))
    ensures Next(m, SizeLoadTail(o)).observers[o] ==
      Reported(if |s.claimed| >= m.tail then |s.claimed| - m.tail else 0)
    ensures s.tail <= |s.claimed|
    ensures between == [] ==> Next(m, SizeLoadTail(o)).observers[o] == Reported(|s.claimed| - s.tail)
  {
    ReachableInv(n, producers, observers, s);
    ObserverStays(Next(s, SizeLoadHead(o)), between, o);
    hide CellInv, ProducerInv, NoneShared, History;
  }
}
