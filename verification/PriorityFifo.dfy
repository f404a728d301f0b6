/** The abstract ready structure: one first-in first-out queue per priority,
    priority 0 the most urgent. The heap structure of module ReadyMatrix is
    proved to behave as this one. */
module PriorityFifo {
  import opened Options

  type Queues<T> = seq<seq<T>>

  function Enqueue<T>(m: Queues<T>, p: nat, x: T): Queues<T>
    requires p < |m|
  {
    m[p := m[p] + [x]]
  }

  predicate Empty<T>(m: Queues<T>)
  {
    forall p :: 0 <= p < |m| ==> m[p] == []
  }

  /** The numerically lowest priority with a thread, or |m|. */
  function Best<T>(m: Queues<T>): (p: nat)
    ensures p <= |m|
    ensures forall q :: 0 <= q < p ==> m[q] == []
    ensures p < |m| ==> m[p] != []
  {
    if m == [] then 0 else if m[0] != [] then 0 else
      var p := Best(m[1..]);
      assert forall q :: 1 <= q < p + 1 ==> m[q] == m[1..][q - 1];
      p + 1
  }

  /** The oldest thread of the most urgent non-empty priority. */
  function PopBest<T>(m: Queues<T>): (r: (Option<T>, Queues<T>))
    ensures r.0.None? <==> Empty(m)
    ensures r.0.None? ==> r.1 == m
    ensures r.0.Some? ==> Best(m) < |m| && r.0.value == m[Best(m)][0] && r.1 == m[Best(m) := m[Best(m)][1..]]
  {
    var p := Best(m);
    if p == |m| then (None, m) else (Some(m[p][0]), m[p := m[p][1..]])
  }

  predicate Distinct<T(==)>(s: seq<T>)
  {
    forall i, j :: 0 <= i < j < |s| ==> s[i] != s[j]
  }

  lemma {:induction false} DistinctFits<T>(ts: seq<T>, all: set<T>)
    requires Distinct(ts) && forall t :: t in ts ==> t in all
    ensures |ts| <= |all|
    decreases |ts|
  {
    if ts != [] {
      assert forall t :: t in ts[1..] ==> t in ts;
      assert ts[0] in ts;
      DistinctFits(ts[1..], all - {ts[0]});
    }
  }

  function Without<T(==)>(s: seq<T>, x: T): seq<T>
  {
    if s == [] then [] else (if s[0] == x then [] else [s[0]]) + Without(s[1..], x)
  }

  /** Cutting out the only occurrence. */
  lemma {:induction false} WithoutAt<T>(s: seq<T>, k: nat)
    requires Distinct(s) && k < |s|
    ensures Without(s, s[k]) == s[..k] + s[k + 1..]
    decreases |s|
  {
    if k == 0 {
      WithoutAbsent(s[1..], s[0]);
    } else {
      assert s[k] == s[1..][k - 1];
      WithoutAt(s[1..], k - 1);
      assert s[..k] == [s[0]] + s[1..][..k - 1];
      assert s[k + 1..] == s[1..][k..];
    }
  }

  lemma {:induction false} WithoutIn<T>(s: seq<T>, x: T)
    ensures forall y :: y in Without(s, x) <==> y in s && y != x
  {
    if s != [] { WithoutIn(s[1..], x); }
  }

  lemma {:induction false} WithoutAbsent<T>(s: seq<T>, x: T)
    requires x !in s
    ensures Without(s, x) == s
  {
    if s != [] { WithoutAbsent(s[1..], x); }
  }

  /** Enqueue each of ts, in order, at its own priority. */
  function EnqueueAll<T>(m: Queues<T>, ts: seq<T>, priority: T -> nat): (r: Queues<T>)
    requires forall t :: t in ts ==> priority(t) < |m|
    ensures |r| == |m|
    decreases |ts|
  {
    if ts == [] then m else EnqueueAll(Enqueue(m, priority(ts[0]), ts[0]), ts[1..], priority)
  }

  /** The thread that gives up the processor, if any, goes to the back of its queue. */
  function Rotated<T>(m: Queues<T>, back: Option<T>, priority: T -> nat): (r: Queues<T>)
    requires back.Some? ==> priority(back.value) < |m|
    ensures |r| == |m|
  {
    match back
    case None => m
    case Some(t) => Enqueue(m, priority(t), t)
  }

  /** What `reschedule` chooses from: the drained requests are queued, then the rotated thread. */
  function Lineup<T>(m: Queues<T>, drained: seq<T>, back: Option<T>, priority: T -> nat): (r: Queues<T>)
    requires (forall t :: t in drained ==> priority(t) < |m|) && (back.Some? ==> priority(back.value) < |m|)
    ensures |r| == |m|
  {
    Rotated(EnqueueAll(m, drained, priority), back, priority)
  }

  function OfPriority<T>(s: seq<T>, p: nat, priority: T -> nat): seq<T>
  {
    if s == [] then [] else (if priority(s[0]) == p then [s[0]] else []) + OfPriority(s[1..], p, priority)
  }

  lemma {:induction false} EnqueueAllRows<T>(m: Queues<T>, ts: seq<T>, priority: T -> nat, p: nat)
    requires p < |m| && forall t :: t in ts ==> priority(t) < |m|
    ensures EnqueueAll(m, ts, priority)[p] == m[p] + OfPriority(ts, p, priority)
    decreases |ts|
  {
    if ts != [] {
      var t := ts[0];
      EnqueueAllRows(Enqueue(m, priority(t), t), ts[1..], priority, p);
      var rest := OfPriority(ts[1..], p, priority);
      if priority(t) == p {
        assert (m[p] + [t]) + rest == m[p] + ([t] + rest);
      } else {
        assert [] + rest == rest;
      }
    }
  }

  lemma {:induction false} EnqueueAllSnoc<T>(m: Queues<T>, ts: seq<T>, t: T, priority: T -> nat)
    requires (forall u :: u in ts ==> priority(u) < |m|) && priority(t) < |m|
    ensures forall u :: u in ts + [t] ==> priority(u) < |m|
    ensures EnqueueAll(m, ts + [t], priority) == Enqueue(EnqueueAll(m, ts, priority), priority(t), t)
    decreases |ts|
  {
    if ts == [] {
      assert [] + [t] == [t] && [t][1..] == [];
    } else {
      assert (ts + [t])[1..] == ts[1..] + [t];
      EnqueueAllSnoc(Enqueue(m, priority(ts[0]), ts[0]), ts[1..], t, priority);
    }
  }

  lemma {:induction false} OfPrioritySplit<T>(a: seq<T>, b: seq<T>, p: nat, priority: T -> nat)
    ensures OfPriority(a + b, p, priority) == OfPriority(a, p, priority) + OfPriority(b, p, priority)
    decreases |a|
  {
    var ofB := OfPriority(b, p, priority);
    if a == [] {
      assert a + b == b && [] + ofB == ofB;
    } else {
      var first, rest := if priority(a[0]) == p then [a[0]] else [], OfPriority(a[1..], p, priority);
      assert (a + b)[1..] == a[1..] + b && (a + b)[0] == a[0];
      OfPrioritySplit(a[1..], b, p, priority);
      assert first + (rest + ofB) == (first + rest) + ofB;
    }
  }

  lemma {:induction false} OfPriorityNone<T>(s: seq<T>, p: nat, priority: T -> nat)
    requires forall i :: 0 <= i < |s| ==> priority(s[i]) != p
    ensures OfPriority(s, p, priority) == []
  {
    if s != [] { OfPriorityNone(s[1..], p, priority); }
  }
}
