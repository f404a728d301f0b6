/** `ThreadReadyQueue` and `ThreadReadyMatrix`: intrusive doubly linked queues of
    control blocks, indexed by a 32-bit bitmap. */
module ReadyMatrix {
  import opened Config
  import opened Threads
  import opened PriorityFifo
  import opened Links
  import Bits

  const BITMAP_BITS: nat := 32

  class ThreadReadyQueue {
    var head: Tcb?
    var tail: Tcb?
    ghost var elems: seq<Tcb>

    ghost predicate Valid()
      reads this, elems
    {
      && Distinct(elems)
      && head == (if elems == [] then null else elems[0])
      && tail == (if elems == [] then null else elems[|elems| - 1])
      && (forall i {:trigger elems[i].prev} :: 0 <= i < |elems| ==> elems[i].prev == Before<Tcb?>(elems, i, null))
      && (forall i {:trigger elems[i].next} :: 0 <= i < |elems| ==> elems[i].next == After<Tcb?>(elems, i, null))
    }

    constructor ()
      ensures Valid() && elems == []
    {
      head, tail := null, null;
      elems := [];
    }

    predicate IsEmpty()
      reads this
    {
      head == null
    }

    method Size() returns (n: nat)
      requires Valid()
      ensures n == |elems|
    {
      n := 0;
      var tcb := head;
      while tcb != null
        invariant n <= |elems|
        invariant tcb == if n == |elems| then null else elems[n]
        decreases |elems| - n
      {
        n := n + 1;
        tcb := tcb.next;
      }
    }

    method PushBack(tcb: Tcb)
      requires Valid() && tcb !in elems
      requires !tcb.IsEnqueued() && tcb.state.Ready?
      modifies this, tcb`next, tcb`prev, (set t | t in elems)`next
      ensures Valid() && elems == old(elems) + [tcb]
    {
      tcb.next := null;
      tcb.prev := tail;
      if tail != null { tail.next := tcb; } else { head := tcb; }
      tail := tcb;
      elems := elems + [tcb];
    }

    method PopFront() returns (tcb: Tcb?)
      requires Valid()
      modifies this, (set t | t in elems)`next, (set t | t in elems)`prev
      ensures Valid()
      ensures old(elems) == [] ==> tcb == null && elems == []
      ensures old(elems) != [] ==> tcb == old(elems)[0] && elems == old(elems)[1..] && !tcb.IsEnqueued()
    {
      if head == null { return null; }
      tcb := head;
      head := tcb.next;
      if head != null { head.prev := null; } else { tail := null; }
      tcb.next, tcb.prev := null, null;
      elems := elems[1..];
    }

    /** The first half of `remove`: the list read forwards skips tcb. */
    method SkipForwards(tcb: Tcb, ghost k: nat)
      requires Valid() && k < |elems| && elems[k] == tcb
      modifies this`head, (set t | t in elems)`next
      ensures head == (if k == 0 then After<Tcb?>(elems, 0, null) else elems[0])
      ensures forall i {:trigger elems[i].next} :: 0 <= i < |elems| ==>
        elems[i].next == NextSkipping<Tcb?>(elems, k, i, null)
    {
      if tcb.prev != null { tcb.prev.next := tcb.next; } else { head := tcb.next; }
    }

    /** The second half: the list read backwards skips tcb. */
    method SkipBackwards(tcb: Tcb, ghost k: nat)
      requires Distinct(elems) && k < |elems| && elems[k] == tcb && tcb.next == After<Tcb?>(elems, k, null)
      requires tail == elems[|elems| - 1]
      requires forall i {:trigger elems[i].prev} :: 0 <= i < |elems| ==> elems[i].prev == Before<Tcb?>(elems, i, null)
      modifies this`tail, (set t | t in elems)`prev
      ensures tail == (if k == |elems| - 1 then Before<Tcb?>(elems, k, null) else elems[|elems| - 1])
      ensures forall i {:trigger elems[i].prev} :: 0 <= i < |elems| ==>
        elems[i].prev == PrevSkipping<Tcb?>(elems, k, i, null)
    {
      if tcb.next != null { tcb.next.prev := tcb.prev; } else { tail := tcb.prev; }
    }

    /** With element k skipped both ways, the others are linked as a list. */
    lemma Relinked(k: nat)
      requires k < |elems| && Distinct(elems)
      requires forall i {:trigger elems[i].next} :: 0 <= i < |elems| && i != k ==>
        elems[i].next == NextSkipping<Tcb?>(elems, k, i, null)
      requires forall i {:trigger elems[i].prev} :: 0 <= i < |elems| && i != k ==>
        elems[i].prev == PrevSkipping<Tcb?>(elems, k, i, null)
      ensures var c := elems[..k] + elems[k + 1..];
        && Distinct(c)
        && (forall i {:trigger c[i].prev} :: 0 <= i < |c| ==> c[i].prev == Before<Tcb?>(c, i, null))
        && (forall i {:trigger c[i].next} :: 0 <= i < |c| ==> c[i].next == After<Tcb?>(c, i, null))
    {
      var c := elems[..k] + elems[k + 1..];
      forall i | 0 <= i < |c|
        ensures c[i].prev == Before<Tcb?>(c, i, null) && c[i].next == After<Tcb?>(c, i, null)
      {
        var j := if i < k then i else i + 1;
        assert c[i] == elems[j];
        assert elems[j].prev == PrevSkipping<Tcb?>(elems, k, j, null)
          && elems[j].next == NextSkipping<Tcb?>(elems, k, j, null);
      }
    }

    method Remove(tcb: Tcb)
      requires Valid() && tcb in elems
      modifies this, (set t | t in elems)`next, (set t | t in elems)`prev
      ensures Valid() && elems == Without(old(elems), tcb) && !tcb.IsEnqueued()
    {
      ghost var k :| 0 <= k < |elems| && elems[k] == tcb;
      SkipForwards(tcb, k);
      SkipBackwards(tcb, k);
      tcb.next, tcb.prev := null, null;
      WithoutAt(elems, k);
      Relinked(k);
      elems := elems[..k] + elems[k + 1..];
    }

    /** `is_enqueued` misses the only element of a queue. */
    lemma EnqueuedExactly(tcb: Tcb)
      requires Valid() && tcb in elems
      ensures tcb.IsEnqueued() <==> |elems| >= 2
    {
      var k :| 0 <= k < |elems| && elems[k] == tcb;
    }
  }

  /** The bitmap indexes the queues: bit p is set exactly when queue p is not empty. */
  ghost predicate Indexes<T>(bitmap: nat, m: Queues<T>)
  {
    && bitmap < Bits.Pow2(BITMAP_BITS)
    && forall p: nat :: Bits.Bit(bitmap, p) <==> p < |m| && m[p] != []
  }

  lemma IndexSet<T>(bitmap: nat, m: Queues<T>, p: nat, x: T)
    requires Indexes(bitmap, m) && p < |m| <= BITMAP_BITS
    ensures Indexes(Bits.Or(bitmap, Bits.Pow2(p)), Enqueue(m, p, x))
  {
    forall k: nat { Bits.SetBit(bitmap, p, k); }
    Bits.Pow2Monotone(p, BITMAP_BITS);
    Bits.OrBound(bitmap, Bits.Pow2(p), BITMAP_BITS);
  }

  lemma IndexCleared<T>(bitmap: nat, m: Queues<T>, p: nat, q: seq<T>)
    requires Indexes(bitmap, m) && p < |m| <= BITMAP_BITS && m[p] != []
    ensures q != [] ==> Indexes(bitmap, m[p := q])
    ensures q == [] ==> Indexes(Bits.And(bitmap, Bits.Not(BITMAP_BITS, Bits.Pow2(p))), m[p := q])
  {
    forall k: nat { Bits.ClearBit(BITMAP_BITS, bitmap, p, k); }
    Bits.AndBound(bitmap, Bits.Not(BITMAP_BITS, Bits.Pow2(p)));
  }

  /** countr_zero of the bitmap is the most urgent non-empty priority. */
  lemma IndexBest<T>(bitmap: nat, m: Queues<T>)
    requires Indexes(bitmap, m)
    ensures bitmap == 0 <==> Empty(m)
    ensures bitmap != 0 ==> Bits.CountTrailingZeros(bitmap) == Best(m) < |m|
  {
    if bitmap == 0 {
      forall p: nat | p < |m| ensures m[p] == [] { Bits.NoBits(p); }
    } else {
      Bits.LowestBit(bitmap);
      var c := Bits.CountTrailingZeros(bitmap);
      if Best(m) < |m| { assert Bits.Bit(bitmap, Best(m)); }
    }
  }

  class ThreadReadyMatrix {
    const matrix: array<ThreadReadyQueue>
    var bitmap: nat
    ghost var queues: Queues<Tcb>

    ghost function Members(): set<Tcb>
      reads this`queues
    {
      set p, i | 0 <= p < |queues| && 0 <= i < |queues[p]| :: queues[p][i]
    }

    /** The lists hold the abstract queues, each thread in the row of its priority. */
    ghost predicate Lists()
      reads this`queues, matrix, matrix[..], Members()
    {
      && matrix.Length == |queues| == MAX_PRIORITIES
      && (forall p, q :: 0 <= p < q < MAX_PRIORITIES ==> matrix[p] != matrix[q])
      && (forall p :: 0 <= p < MAX_PRIORITIES ==> matrix[p].elems == queues[p])
      && (forall p :: 0 <= p < MAX_PRIORITIES ==> matrix[p].Valid())
      && (forall p, i :: 0 <= p < MAX_PRIORITIES && 0 <= i < |queues[p]| ==> queues[p][i].priority == p)
    }

    ghost predicate Valid()
      reads this, matrix, matrix[..], Members()
    {
      Lists() && Indexes(bitmap, queues)
    }

    constructor (rows: array<ThreadReadyQueue>)
      requires rows.Length == MAX_PRIORITIES
      requires forall p, q :: 0 <= p < q < rows.Length ==> rows[p] != rows[q]
      requires forall p :: 0 <= p < rows.Length ==> rows[p].Valid() && rows[p].elems == []
      ensures Valid() && Empty(queues) && matrix == rows
    {
      matrix := rows;
      bitmap := 0;
      queues := seq(MAX_PRIORITIES, _ => []);
      new;
      forall p: nat { Bits.NoBits(p); }
    }

    function BestPriority(): (p: int)
      requires Valid()
      reads this, matrix, matrix[..], Members()
      ensures p == if Empty(queues) then -1 else Best(queues)
    {
      IndexBest(bitmap, queues);
      if bitmap != 0 then Bits.CountTrailingZeros(bitmap) else -1
    }

    method PushRow(tcb: Tcb)
      requires Lists() && tcb !in Members()
      requires tcb.priority < MAX_PRIORITIES && tcb.state.Ready? && !tcb.IsEnqueued()
      modifies this`queues, matrix[tcb.priority], tcb`next, tcb`prev, (set t | t in queues[tcb.priority])`next
      ensures Lists() && queues == Enqueue(old(queues), tcb.priority, tcb)
    {
      assert tcb !in queues[tcb.priority];
      matrix[tcb.priority].PushBack(tcb);
      queues := Enqueue(queues, tcb.priority, tcb);
    }

    method EnqueueThread(tcb: Tcb)
      requires Valid() && tcb !in Members()
      requires tcb.priority < MAX_PRIORITIES && tcb.state.Ready? && !tcb.IsEnqueued()
      modifies this, matrix[..], tcb`next, tcb`prev, Members()`next
      ensures Valid() && queues == Enqueue(old(queues), tcb.priority, tcb)
    {
      assert matrix.Length == |queues| == MAX_PRIORITIES;
      hide Lists, Indexes, Members;
      PushRow(tcb);
      SetBit(tcb, old(queues));
    }

    /** Set the bit of the row that has just been pushed to. */
    method SetBit(tcb: Tcb, ghost was: Queues<Tcb>)
      requires Lists() && tcb.priority < MAX_PRIORITIES == |was|
      requires Indexes(bitmap, was) && queues == Enqueue(was, tcb.priority, tcb)
      modifies this`bitmap
      ensures Valid()
    {
      hide Indexes, Bits.Or, Bits.Pow2;
      IndexSet(bitmap, was, tcb.priority, tcb);
      bitmap := Bits.Or(bitmap, Bits.Pow2(tcb.priority));
    }

    method PeekBestThread() returns (tcb: Tcb?)
      requires Valid()
      ensures tcb == match PopBest(queues).0 case None => null case Some(t) => t
    {
      IndexBest(bitmap, queues);
      if bitmap == 0 { return null; }
      tcb := matrix[Bits.CountTrailingZeros(bitmap)].head;
    }

    method PopRow(p: nat) returns (tcb: Tcb)
      requires Lists() && p < MAX_PRIORITIES && queues[p] != []
      modifies this`queues, matrix[p], (set t | t in queues[p])`next, (set t | t in queues[p])`prev
      ensures Lists() && !tcb.IsEnqueued()
      ensures tcb == old(queues)[p][0] && queues == old(queues)[p := old(queues)[p][1..]]
    {
      tcb := matrix[p].PopFront();
      queues := queues[p := queues[p][1..]];
    }

    method RemoveFromRow(p: nat, tcb: Tcb)
      requires Lists() && p < MAX_PRIORITIES && tcb in queues[p]
      modifies this`queues, matrix[p], (set t | t in queues[p])`next, (set t | t in queues[p])`prev
      ensures Lists() && !tcb.IsEnqueued()
      ensures queues == old(queues)[p := Without(old(queues)[p], tcb)]
    {
      matrix[p].Remove(tcb);
      WithoutIn(queues[p], tcb);
      assert forall t :: t in Without(queues[p], tcb) ==> t.priority == p;
      queues := queues[p := Without(queues[p], tcb)];
    }

    /** Clear the bit of a row that has just become empty. */
    method ClearIfEmpty(p: nat, ghost was: Queues<Tcb>)
      requires Lists() && p < MAX_PRIORITIES == |was| && was[p] != []
      requires Indexes(bitmap, was) && queues == was[p := queues[p]]
      modifies this`bitmap
      ensures Valid()
    {
      IndexCleared(bitmap, was, p, queues[p]);
      if matrix[p].IsEmpty() { bitmap := Bits.And(bitmap, Bits.Not(BITMAP_BITS, Bits.Pow2(p))); }
    }

    method PopBestThread() returns (tcb: Tcb?)
      requires Valid()
      modifies this, matrix[..], Members()`next, Members()`prev
      ensures Valid()
      ensures queues == PopBest(old(queues)).1
      ensures tcb == match PopBest(old(queues)).0 case None => null case Some(t) => t
      ensures tcb != null ==> !tcb.IsEnqueued()
    {
      IndexBest(bitmap, queues);
      if bitmap == 0 { return null; }
      var p := Bits.CountTrailingZeros(bitmap);
      tcb := PopRow(p);
      ClearIfEmpty(p, old(queues));
    }

    method RemoveThread(tcb: Tcb)
      requires Valid() && tcb in Members()
      modifies this, matrix[..], Members()`next, Members()`prev
      ensures Valid() && !tcb.IsEnqueued()
      ensures queues == old(queues)[tcb.priority := Without(old(queues)[tcb.priority], tcb)]
    {
      RemoveFromRow(tcb.priority, tcb);
      ClearIfEmpty(tcb.priority, old(queues));
    }
  }

  lemma MatrixSize(ready: ThreadReadyMatrix)
    requires ready.Valid()
    ensures |ready.queues| == MAX_PRIORITIES
  {}
}
