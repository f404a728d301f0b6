/** Control blocks and what a thread waits with: `ThreadControlBlock`, its pool
    of `WaitNode`s, its `WaitGroup`, and the `Waitable` queues the nodes are
    threaded through. */
module Threads {
  import opened Config
  import opened PriorityFifo
  import opened Links
  import Bits

  datatype State = Ready | Running | Blocked | Terminated

  /** The outcome of one wait: which signal won it. */
  class WaitGroup {
    var done: bool
    var winnerIndex: int
    var acquired: bool

    constructor ()
      ensures !done
    {
      done, winnerIndex, acquired := false, -1, false;
    }

    method Begin()
      modifies this
      ensures !done && winnerIndex == -1 && !acquired
    {
      done, winnerIndex, acquired := false, -1, false;
    }

    /** Only the first of any number of attempts wins, and only its result stays. */
    method TryWin(index: int, acquired: bool) returns (won: bool)
      modifies this
      ensures done && won == !old(done)
      ensures won ==> winnerIndex == index && this.acquired == acquired
      ensures !won ==> unchanged(this)
    {
      if done { return false; }
      done, winnerIndex, this.acquired := true, index, acquired;
      won := true;
    }
  }

  class WaitNode {
    const slot: nat
    const tcb: Tcb
    var active: bool
    var next: WaitNode?
    var prev: WaitNode?
    var waitable: Waitable?
    var group: WaitGroup?
    var index: nat

    constructor (slot: nat, tcb: Tcb)
      ensures this.slot == slot && this.tcb == tcb && !active && waitable == null && !IsEnqueued()
    {
      this.slot, this.tcb := slot, tcb;
      active, next, prev, waitable, group, index := false, null, null, null, null, 255;
    }

    predicate IsEnqueued()
      reads this
    {
      next != null || prev != null
    }
  }

  class Tcb {
    const id: nat
    const priority: nat
    const pinnedCore: nat
    var state: State
    var next: Tcb?
    var prev: Tcb?
    const waitGroup: WaitGroup
    var nodes: seq<WaitNode>
    var freeMask: nat

    constructor (id: nat, priority: nat, core: nat)
      ensures PoolValid() && AllFree() && state.Ready? && !IsEnqueued()
      ensures this.id == id && this.priority == priority && this.pinnedCore == core
      ensures fresh(waitGroup) && fresh(nodes) && !waitGroup.done
    {
      this.id, this.priority, this.pinnedCore := id, priority, core;
      state := Ready;
      next, prev := null, null;
      waitGroup := new WaitGroup();
      nodes := [];
      freeMask := Bits.Pow2(MAX_WAIT_NODES) - 1;
      new;
      while |nodes| < MAX_WAIT_NODES
        modifies this`nodes
        invariant |nodes| <= MAX_WAIT_NODES && fresh(nodes)
        invariant forall i :: 0 <= i < |nodes| ==> nodes[i].slot == i && nodes[i].tcb == this && !nodes[i].active
      {
        var node := new WaitNode(|nodes|, this);
        nodes := nodes + [node];
      }
      forall k: nat
        ensures Bits.Bit(freeMask, k) <==> k < MAX_WAIT_NODES
      {
        LowBits(MAX_WAIT_NODES, k);
      }
    }

    predicate IsEnqueued()
      reads this
    {
      next != null || prev != null
    }

    /** The mask says which nodes are free. */
    ghost predicate PoolValid()
      reads this`nodes, this`freeMask, nodes
    {
      && |nodes| == MAX_WAIT_NODES
      && (forall i :: 0 <= i < |nodes| ==> nodes[i].slot == i && nodes[i].tcb == this)
      && freeMask < Bits.Pow2(MAX_WAIT_NODES)
      && (forall i :: 0 <= i < |nodes| ==> (Bits.Bit(freeMask, i) <==> !nodes[i].active))
    }

    ghost predicate AllFree()
      reads this`nodes, this`freeMask, nodes
    {
      && freeMask == Bits.Pow2(MAX_WAIT_NODES) - 1
      && forall i :: 0 <= i < |nodes| ==> !nodes[i].active
    }

    /** `WaitNodePool::alloc`: the lowest free slot. */
    method Alloc(waitable: Waitable, index: nat) returns (node: WaitNode?)
      requires PoolValid()
      modifies this`freeMask, (set n | n in nodes && !n.active)
      ensures PoolValid()
      ensures node == null <==> forall i :: 0 <= i < |nodes| ==> old(nodes[i].active)
      ensures node == null ==> freeMask == old(freeMask) && unchanged(nodes)
      ensures node != null ==>
        && node.slot < |nodes| && node == nodes[node.slot] && !old(node.active)
        && (forall i :: 0 <= i < node.slot ==> nodes[i].active)
        && node.active && node.waitable == waitable && node.group == waitGroup && node.index == index
        && !node.IsEnqueued()
        && forall n :: n in nodes && n != node ==> unchanged(n)
    {
      if freeMask == 0 {
        forall k: nat { Bits.NoBits(k); }
        return null;
      }
      var bit := Bits.CountTrailingZeros(freeMask);
      Bits.LowestBit(freeMask);
      if bit >= MAX_WAIT_NODES { Bits.HighBits(freeMask, MAX_WAIT_NODES, bit); assert false; }
      ghost var was := freeMask;
      freeMask := Bits.And(freeMask, Bits.Not(32, Bits.Pow2(bit)));
      MaskCleared(was, bit);
      node := nodes[bit];
      node.next, node.prev := null, null;
      node.active, node.group, node.waitable, node.index := true, waitGroup, waitable, index;
    }

    /** `WaitNodePool::free`. */
    method Free(node: WaitNode)
      requires PoolValid() && node in nodes && node.active
      modifies this`freeMask, node
      ensures PoolValid()
      ensures !node.active && node.waitable == null && node.group == null && !node.IsEnqueued()
      ensures forall k: nat :: Bits.Bit(freeMask, k) <==> Bits.Bit(old(freeMask), k) || k == node.slot
    {
      node.active, node.next, node.prev, node.waitable, node.group, node.index := false, null, null, null, null, 255;
      ghost var was := freeMask;
      freeMask := Bits.Or(freeMask, Bits.Pow2(node.slot));
      MaskSet(was, node.slot);
    }
  }

  lemma LowBits(w: nat, k: nat)
    ensures Bits.Bit(Bits.Pow2(w) - 1, k) <==> k < w
    decreases w
  {
    if w == 0 {
      Bits.NoBits(k);
    } else if k > 0 {
      assert (Bits.Pow2(w) - 1) / 2 == Bits.Pow2(w - 1) - 1;
      LowBits(w - 1, k - 1);
    }
  }

  lemma MaskCleared(mask: nat, bit: nat)
    requires mask < Bits.Pow2(MAX_WAIT_NODES) && bit < MAX_WAIT_NODES
    ensures var m := Bits.And(mask, Bits.Not(32, Bits.Pow2(bit)));
      && m < Bits.Pow2(MAX_WAIT_NODES)
      && forall k: nat :: Bits.Bit(m, k) <==> Bits.Bit(mask, k) && k != bit
  {
    Bits.Pow2Monotone(MAX_WAIT_NODES, 32);
    forall k: nat { Bits.ClearBit(32, mask, bit, k); }
    Bits.AndBound(mask, Bits.Not(32, Bits.Pow2(bit)));
  }

  lemma MaskSet(mask: nat, bit: nat)
    requires mask < Bits.Pow2(MAX_WAIT_NODES) && bit < MAX_WAIT_NODES
    ensures var m := Bits.Or(mask, Bits.Pow2(bit));
      && m < Bits.Pow2(MAX_WAIT_NODES)
      && forall k: nat :: Bits.Bit(m, k) <==> Bits.Bit(mask, k) || k == bit
  {
    forall k: nat { Bits.SetBit(mask, bit, k); }
    Bits.Pow2Monotone(bit, MAX_WAIT_NODES);
    Bits.OrBound(mask, Bits.Pow2(bit), MAX_WAIT_NODES);
  }

  class Waitable {
    var head: WaitNode?
    var tail: WaitNode?
    ghost var elems: seq<WaitNode>

    ghost predicate Valid()
      reads this, elems
    {
      && Distinct(elems)
      && head == (if elems == [] then null else elems[0])
      && tail == (if elems == [] then null else elems[|elems| - 1])
      && (forall i {:trigger elems[i].prev} :: 0 <= i < |elems| ==> elems[i].prev == Before<WaitNode?>(elems, i, null))
      && (forall i {:trigger elems[i].next} :: 0 <= i < |elems| ==> elems[i].next == After<WaitNode?>(elems, i, null))
    }

    constructor ()
      ensures Valid() && elems == []
    {
      head, tail := null, null;
      elems := [];
    }

    method Add(node: WaitNode)
      requires Valid() && node !in elems && !node.IsEnqueued()
      requires node.waitable == this || node.waitable == null
      modifies this, node`waitable, node`next, node`prev, (set n | n in elems)`next
      ensures Valid() && elems == old(elems) + [node] && node.waitable == this
    {
      node.waitable := this;
      node.prev := tail;
      node.next := null;
      if tail != null { tail.next := node; } else { head := node; }
      tail := node;
      elems := elems + [node];
    }

    method SkipForwards(node: WaitNode, ghost k: nat)
      requires Valid() && k < |elems| && elems[k] == node
      modifies this`head, (set n | n in elems)`next
      ensures head == (if k == 0 then After<WaitNode?>(elems, 0, null) else elems[0])
      ensures forall i {:trigger elems[i].next} :: 0 <= i < |elems| ==>
        elems[i].next == NextSkipping<WaitNode?>(elems, k, i, null)
    {
      if node.prev != null { node.prev.next := node.next; } else { head := node.next; }
    }

    method SkipBackwards(node: WaitNode, ghost k: nat)
      requires Distinct(elems) && k < |elems| && elems[k] == node && node.next == After<WaitNode?>(elems, k, null)
      requires tail == elems[|elems| - 1]
      requires forall i {:trigger elems[i].prev} :: 0 <= i < |elems| ==>
        elems[i].prev == Before<WaitNode?>(elems, i, null)
      modifies this`tail, (set n | n in elems)`prev
      ensures tail == (if k == |elems| - 1 then Before<WaitNode?>(elems, k, null) else elems[|elems| - 1])
      ensures forall i {:trigger elems[i].prev} :: 0 <= i < |elems| ==>
        elems[i].prev == PrevSkipping<WaitNode?>(elems, k, i, null)
    {
      if node.next != null { node.next.prev := node.prev; } else { tail := node.prev; }
    }

    lemma Relinked(k: nat)
      requires k < |elems| && Distinct(elems)
      requires forall i {:trigger elems[i].next} :: 0 <= i < |elems| && i != k ==>
        elems[i].next == NextSkipping<WaitNode?>(elems, k, i, null)
      requires forall i {:trigger elems[i].prev} :: 0 <= i < |elems| && i != k ==>
        elems[i].prev == PrevSkipping<WaitNode?>(elems, k, i, null)
      ensures var c := elems[..k] + elems[k + 1..];
        && Distinct(c)
        && (forall i {:trigger c[i].prev} :: 0 <= i < |c| ==> c[i].prev == Before<WaitNode?>(c, i, null))
        && (forall i {:trigger c[i].next} :: 0 <= i < |c| ==> c[i].next == After<WaitNode?>(c, i, null))
    {
      var c := elems[..k] + elems[k + 1..];
      forall i | 0 <= i < |c|
        ensures c[i].prev == Before<WaitNode?>(c, i, null) && c[i].next == After<WaitNode?>(c, i, null)
      {
        var j := if i < k then i else i + 1;
        assert c[i] == elems[j];
        assert elems[j].prev == PrevSkipping<WaitNode?>(elems, k, j, null)
          && elems[j].next == NextSkipping<WaitNode?>(elems, k, j, null);
      }
    }

    method Detach(node: WaitNode)
      requires Valid() && node in elems
      modifies this, (set n | n in elems)`next, (set n | n in elems)`prev
      ensures Valid() && elems == Without(old(elems), node) && !node.IsEnqueued()
    {
      ghost var k :| 0 <= k < |elems| && elems[k] == node;
      SkipForwards(node, k);
      SkipBackwards(node, k);
      node.next, node.prev := null, null;
      WithoutAt(elems, k);
      Relinked(k);
      elems := elems[..k] + elems[k + 1..];
    }

    method Remove(node: WaitNode)
      requires Valid() && (node.waitable == this ==> node in elems)
      modifies this, node`waitable, (set n | n in elems)`next, (set n | n in elems)`prev
      ensures Valid()
      ensures old(node.waitable) == this ==>
        elems == Without(old(elems), node) && node.waitable == null && !node.IsEnqueued()
      ensures old(node.waitable) != this ==> unchanged(this) && unchanged(node) && unchanged(old(elems))
    {
      if node.waitable != this { return; }
      WithoutIn(elems, node);
      Detach(node);
      node.waitable := null;
    }
  }
}
