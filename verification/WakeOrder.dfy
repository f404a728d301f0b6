/** The order in which `signal_all` wakes the threads of a queue, and what that
    does to the ready queues of one core. */
module WakeOrder {
  import opened PriorityFifo
  import opened Threads

  function PriorityOf(t: Tcb): nat
  {
    t.priority
  }

  /** k is what `pick_best` finds: the first of the most urgent. */
  ghost predicate IsBest(s: seq<Tcb>, k: nat)
  {
    && k < |s|
    && (forall j :: 0 <= j < k ==> s[k].priority < s[j].priority)
    && (forall j :: 0 <= j < |s| ==> s[k].priority <= s[j].priority)
  }

  function BestAt(s: seq<Tcb>): (k: nat)
    requires s != []
    ensures IsBest(s, k)
  {
    if |s| == 1 then 0 else
      var k := BestAt(s[..|s| - 1]);
      if s[|s| - 1].priority < s[k].priority then |s| - 1 else k
  }

  function Cut(s: seq<Tcb>, k: nat): (c: seq<Tcb>)
    requires k < |s|
    ensures |c| == |s| - 1
  {
    s[..k] + s[k + 1..]
  }

  /** Take the best, repeatedly, until none is left. */
  function Woken(s: seq<Tcb>): (r: seq<Tcb>)
    ensures |r| == |s|
    decreases |s|
  {
    if s == [] then [] else [s[BestAt(s)]] + Woken(Cut(s, BestAt(s)))
  }

  function Only(t: Tcb, p: nat): seq<Tcb>
  {
    if t.priority == p then [t] else []
  }

  lemma OfPriorityAt(s: seq<Tcb>, k: nat, p: nat)
    requires k < |s|
    ensures var a, b := OfPriority(s[..k], p, PriorityOf), OfPriority(s[k + 1..], p, PriorityOf);
      OfPriority(s, p, PriorityOf) == a + Only(s[k], p) + b && OfPriority(Cut(s, k), p, PriorityOf) == a + b
  {
    assert s == s[..k] + [s[k]] + s[k + 1..];
    OfPrioritySplit(s[..k] + [s[k]], s[k + 1..], p, PriorityOf);
    OfPrioritySplit(s[..k], [s[k]], p, PriorityOf);
    OfPrioritySplit(s[..k], s[k + 1..], p, PriorityOf);
  }

  lemma OfPriorityCons(t: Tcb, s: seq<Tcb>, p: nat)
    ensures OfPriority([t] + s, p, PriorityOf) == Only(t, p) + OfPriority(s, p, PriorityOf)
  {}

  /** Stable: among threads of one priority, arrival order is wake order. With
      `WokenSorted` this makes the wake order the stable sort by priority. */
  lemma {:induction false} WokenStable(s: seq<Tcb>, p: nat)
    ensures OfPriority(Woken(s), p, PriorityOf) == OfPriority(s, p, PriorityOf)
    decreases |s|
  {
    if s != [] {
      var k := BestAt(s);
      WokenStable(Cut(s, k), p);
      if s[k].priority == p { OfPriorityNone(s[..k], p, PriorityOf); }
      OfPriorityAt(s, k, p);
      OfPriorityCons(s[k], Woken(Cut(s, k)), p);
      hide OfPriority;
    }
  }

  lemma {:induction false} WokenMembers(s: seq<Tcb>)
    ensures multiset(Woken(s)) == multiset(s)
    decreases |s|
  {
    if s != [] {
      var k := BestAt(s);
      WokenMembers(Cut(s, k));
      CutMembers(s, k);
    }
  }

  lemma CutMembers(s: seq<Tcb>, k: nat)
    requires k < |s|
    ensures multiset(s) == multiset{s[k]} + multiset(Cut(s, k))
  {
    assert s == s[..k] + [s[k]] + s[k + 1..];
  }

  /** Most urgent first. */
  lemma {:induction false} WokenSorted(s: seq<Tcb>)
    ensures forall i, j :: 0 <= i < j < |s| ==> Woken(s)[i].priority <= Woken(s)[j].priority
    decreases |s|
  {
    if s != [] {
      var k := BestAt(s);
      var c := Cut(s, k);
      WokenSorted(c);
      WokenMembers(c);
      forall j | 0 <= j < |c|
        ensures s[k].priority <= Woken(c)[j].priority
      {
        assert Woken(c)[j] in multiset(Woken(c));
        assert Woken(c)[j] in c;
      }
    }
  }

  lemma BestUnique(s: seq<Tcb>, k: nat)
    requires IsBest(s, k)
    ensures k == BestAt(s)
  {}

  lemma WokenStep(s: seq<Tcb>, k: nat)
    requires IsBest(s, k)
    ensures Woken(s) == [s[k]] + Woken(Cut(s, k))
  {
    BestUnique(s, k);
  }

  /** On one core, waking a whole queue extends each ready queue by exactly the
      waiters of its priority, in arrival order. */
  lemma SignalAllRows(m: Queues<Tcb>, arrived: seq<Tcb>, p: nat)
    requires p < |m| && forall t :: t in arrived ==> t.priority < |m|
    ensures forall t :: t in Woken(arrived) ==> t in arrived
    ensures EnqueueAll(m, Woken(arrived), PriorityOf)[p] == m[p] + OfPriority(arrived, p, PriorityOf)
  {
    WokenMembers(arrived);
    assert forall t :: t in Woken(arrived) ==> t in multiset(Woken(arrived));
    EnqueueAllRows(m, Woken(arrived), PriorityOf, p);
    WokenStable(arrived, p);
  }
}
