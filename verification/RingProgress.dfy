/** How far other cores can delay a push or a pop: `push` is lock-free and `pop` is wait-free. */
module RingProgress {
  import opened Ring

  /** The sum of f over the steps of a run. */
  ghost function Total(s: Ring, run: seq<Step>, f: (Ring, Step) -> nat): nat
    requires Shaped(s) && Exec(s, run).Some?
    decreases |run|
  {
    if run == [] then 0 else
      NextShaped(s, run[0]);
      f(s, run[0]) + Total(Next(s, run[0]), run[1..], f)
  }

  ghost predicate ClaimFails(s: Ring, a: Step, i: nat)
  {
    a.Claim? && a.i == i && i < |s.producers| && s.producers[i].AtClaim? && (s.head != s.producers[i].pos || a.spurious)
  }

  /** Producer i goes round the loop of `push` again. */
  ghost function Retry(i: nat): (Ring, Step) -> nat
  {
    (s: Ring, a: Step) => if a == Reload(i) || ClaimFails(s, a, i) then 1 else 0
  }

  /** Another producer claims a position. */
  ghost function OthersClaim(i: nat): (Ring, Step) -> nat
  {
    (s: Ring, a: Step) => if a.Claim? && a.i != i && !ClaimFails(s, a, a.i) then 1 else 0
  }

  /** The compare-exchange fails although nobody has claimed the position. */
  ghost function Spurious(i: nat): (Ring, Step) -> nat
  {
    (s: Ring, a: Step) => if ClaimFails(s, a, i) && s.head == s.producers[i].pos then 1 else 0
  }

  /** The position producer i works from has been claimed by another since it was loaded. */
  ghost function Stale(s: Ring, i: nat): nat
  {
    if i >= |s.producers| then 0 else
    match s.producers[i]
    case AtLoadSequence(_, pos) => if pos < s.head then 1 else 0
    case AtClaim(_, pos) => if pos < s.head then 1 else 0
    case AtReload(_) => 1
    case _ => 0
  }

  lemma RetryStep(s: Ring, a: Step, i: nat)
    requires Inv(s) && Enabled(s, a)
    ensures Retry(i)(s, a) + Stale(Next(s, a), i) <= Stale(s, i) + OthersClaim(i)(s, a) + Spurious(i)(s, a)
  {
    if i < |s.producers| {
      assert ProducerInv(s, s.producers[i]);
      if a == LoadSequence(i) { SequenceSeen(s, s.producers[i].pos); }
    }
  }

  lemma {:induction false} RetriesFrom(s: Ring, run: seq<Step>, i: nat)
    requires Inv(s) && Exec(s, run).Some?
    ensures Total(s, run, Retry(i)) + Stale(Exec(s, run).value, i)
         <= Stale(s, i) + Total(s, run, OthersClaim(i)) + Total(s, run, Spurious(i))
    decreases |run|
  {
    if run != [] {
      RetryStep(s, run[0], i);
      Keep(s, run[0]);
      hide Inv, Next, Enabled, Stale, Retry, OthersClaim, Spurious;
      RetriesFrom(Next(s, run[0]), run[1..], i);
    }
  }

  // ---------------------------------------------------------------- own steps

  predicate IsPop(a: Step)
  {
    a.PopLoadTail? || a.PopCheck? || a.PopAdvance? || a.PopTake? || a.PopFree?
  }

  ghost function PushSteps(i: nat): (Ring, Step) -> nat
  {
    (s: Ring, a: Step) => if !IsPop(a) && !a.SizeLoadHead? && !a.SizeLoadTail? && a.i == i then 1 else 0
  }

  ghost predicate PushReturns(s: Ring, a: Step, i: nat)
  {
    && Shaped(s) && Enabled(s, a) && i < |s.producers|
    && !s.producers[i].Outside? && Next(s, a).producers[i].Outside?
  }

  ghost function Pushes(i: nat): (Ring, Step) -> nat
  {
    (s: Ring, a: Step) => if PushReturns(s, a, i) then 1 else 0
  }

  ghost function PopSteps(): (Ring, Step) -> nat
  {
    (s: Ring, a: Step) => if IsPop(a) then 1 else 0
  }

  ghost function Pops(): (Ring, Step) -> nat
  {
    (s: Ring, a: Step) =>
      if Shaped(s) && Enabled(s, a) && !s.consumer.Resting? && Next(s, a).consumer.Resting? then 1 else 0
  }

  ghost function PushStage(s: Ring, i: nat): nat
  {
    if i >= |s.producers| then 0 else
    match s.producers[i]
    case Outside => 0
    case AtLoadSequence(_, _) => 1
    case AtReload(_) => 2
    case AtClaim(_, _) => 2
    case AtConstruct(_, _) => 3
    case AtPublish(_, _) => 4
  }

  ghost function PopStage(s: Ring): nat
  {
    match s.consumer
    case Resting => 0
    case AtCheck(_) => 1
    case AtAdvance(_) => 2
    case AtTake(_) => 3
    case AtFree(_) => 4
  }

  lemma OwnStep(s: Ring, a: Step, i: nat)
    requires Shaped(s) && Enabled(s, a) && i < |s.producers|
    ensures PushSteps(i)(s, a) + PushStage(s, i) <= PushStage(Next(s, a), i) + 5 * Pushes(i)(s, a) + 2 * Retry(i)(s, a)
  {}

  lemma PopStep(s: Ring, a: Step)
    requires Shaped(s) && Enabled(s, a)
    ensures PopSteps()(s, a) + PopStage(s) <= PopStage(Next(s, a)) + 5 * Pops()(s, a)
  {}

  lemma {:induction false} OwnSteps(s: Ring, run: seq<Step>, i: nat)
    requires Shaped(s) && Exec(s, run).Some? && i < |s.producers|
    ensures Total(s, run, PushSteps(i)) + PushStage(s, i)
         <= PushStage(Exec(s, run).value, i) + 5 * Total(s, run, Pushes(i)) + 2 * Total(s, run, Retry(i))
    decreases |run|
  {
    if run != [] {
      NextShaped(s, run[0]);
      OwnStep(s, run[0], i);
      assert |Next(s, run[0]).producers| == |s.producers|;
      hide Next, Enabled, Retry, PushSteps, Pushes, PushStage;
      OwnSteps(Next(s, run[0]), run[1..], i);
    }
  }

  lemma {:induction false} ConsumerSteps(s: Ring, run: seq<Step>)
    requires Shaped(s) && Exec(s, run).Some?
    ensures Total(s, run, PopSteps()) + PopStage(s) <= PopStage(Exec(s, run).value) + 5 * Total(s, run, Pops())
    decreases |run|
  {
    if run != [] {
      NextShaped(s, run[0]);
      PopStep(s, run[0]);
      hide Next, Enabled, PopSteps, Pops, PopStage;
      ConsumerSteps(Next(s, run[0]), run[1..]);
    }
  }

  // -------------------------------------------------------------- main results

  /** Lock-freedom of `push`, over every run: a producer goes round its loop again at most once for every
      claim another producer made and every spurious failure; so all its steps but those, and four of a
      push in progress, belong to pushes that have returned, five to each. */
  lemma PushLockFree(n: nat, producers: nat, observers: nat, run: seq<Step>, i: nat)
    requires n >= 2 && i < producers && Exec(Init(n, producers, observers), run).Some?
    ensures var s := Init(n, producers, observers);
      && Total(s, run, Retry(i)) <= Total(s, run, OthersClaim(i)) + Total(s, run, Spurious(i))
      && Total(s, run, PushSteps(i))
         <= 4 + 5 * Total(s, run, Pushes(i)) + 2 * (Total(s, run, OthersClaim(i)) + Total(s, run, Spurious(i)))
  {
    var s := Init(n, producers, observers);
    InitInv(n, producers, observers);
    RetriesFrom(s, run, i);
    OwnSteps(s, run, i);
  }

  /** Wait-freedom of `pop`, over every run: five steps of the consumer at most to every pop, whatever the
      producers do. */
  lemma PopWaitFree(n: nat, producers: nat, observers: nat, run: seq<Step>)
    requires n > 0 && Exec(Init(n, producers, observers), run).Some?
    ensures var s := Init(n, producers, observers);
      Total(s, run, PopSteps()) <= 4 + 5 * Total(s, run, Pops())
  {
    ConsumerSteps(Init(n, producers, observers), run);
  }
}
