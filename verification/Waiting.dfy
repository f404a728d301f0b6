/** Blocking on several waitables at once and being woken by one of them:
    `prepare_block`, `pick_best`, `wake_thread`, `teardown_wait_group`,
    `signal_one` and `signal_all`, on the heap of module Threads. A pick and the
    wake that follows it are one step, as on one core. */
module Waiting {
  import opened Config
  import opened PriorityFifo
  import opened Threads
  import opened WakeOrder
  import opened ReadyMatrix
  import Bits

  // ------------------------------------------------------- queues as sequences

  /** s without the nodes t owns in its first i slots. */
  function DropSlots(s: seq<WaitNode>, t: Tcb, i: nat): seq<WaitNode>
  {
    if s == [] then []
    else (if s[0].tcb == t && s[0].slot < i then [] else [s[0]]) + DropSlots(s[1..], t, i)
  }

  lemma {:induction false} DropNone(s: seq<WaitNode>, t: Tcb)
    ensures DropSlots(s, t, 0) == s
  {
    if s != [] { DropNone(s[1..], t); }
  }

  lemma {:induction false} DropNext(s: seq<WaitNode>, t: Tcb, i: nat, node: WaitNode)
    requires forall n :: n in s && n.tcb == t && n.slot == i ==> n == node
    requires node.tcb == t && node.slot == i
    ensures DropSlots(s, t, i + 1) == Without(DropSlots(s, t, i), node)
  {
    if s != [] {
      DropNext(s[1..], t, i, node);
      var rest := DropSlots(s[1..], t, i);
      assert [] + rest == rest && ([s[0]] + rest)[1..] == rest;
      assert s[0].tcb == t && s[0].slot == i <==> s[0] == node;
    }
  }

  // ----------------------------------------------------------- well-formedness

  /** n stands in w's queue for a thread of T. */
  ghost predicate Stands(n: WaitNode, w: Waitable, T: set<Tcb>, N: set<WaitNode>)
    reads n, T`nodes
  {
    && n in N && n.active && n.waitable == w && n.group == n.tcb.waitGroup
    && n.tcb in T && n.slot < |n.tcb.nodes| && n == n.tcb.nodes[n.slot]
  }

  /** A thread's active nodes are exactly where they say they are. */
  ghost predicate Placed(t: Tcb, W: set<Waitable>, N: set<WaitNode>)
    reads *
  {
    && (forall n :: n in t.nodes ==> n in N)
    && t.PoolValid()
    && (forall n :: n in t.nodes && n.active ==> n.waitable != null && n.waitable in W && n in n.waitable.elems)
  }

  /** The waitables W, the threads T and their nodes N form a closed, consistent whole. */
  ghost predicate World(W: set<Waitable>, T: set<Tcb>, N: set<WaitNode>)
    reads *
  {
    && Linked(W)
    && (forall w, n :: w in W && n in w.elems ==> Stands(n, w, T, N))
    && (forall t :: t in T ==> Placed(t, W, N))
  }

  /** G are the wait groups of T, no two threads sharing one. */
  ghost predicate OwnGroups(T: set<Tcb>, G: set<WaitGroup>)
  {
    && (forall t :: t in T ==> t.waitGroup in G)
    && (forall t, u :: t in T && u in T && t != u ==> t.waitGroup != u.waitGroup)
  }

  // ------------------------------------------------------------------ teardown

  /** Every queue of W is well linked and holds only nodes that say they are in it. */
  ghost predicate Linked(W: set<Waitable>)
    reads *
  {
    && (forall w :: w in W ==> w.Valid())
    && (forall w, n :: w in W && n in w.elems ==> n.waitable == w)
  }

  /** Taking a node off its queue leaves every other queue as it was. */
  method Leave(node: WaitNode, ghost W: set<Waitable>)
    requires Linked(W) && node.waitable != null && node.waitable in W && node in node.waitable.elems
    modifies node.waitable, node`waitable
    modifies (set n | n in node.waitable.elems)`next, (set n | n in node.waitable.elems)`prev
    ensures Linked(W)
    ensures forall w :: w in W ==> w.elems == Without(old(w.elems), node)
    ensures forall w :: w in W ==> node !in w.elems
  {
    ghost var home := node.waitable;
    node.waitable.Remove(node);
    forall w | w in W
      ensures w.Valid() && w.elems == Without(old(w.elems), node) && node !in w.elems
    {
      WithoutIn(old(w.elems), node);
      if w != home {
        WithoutAbsent(old(w.elems), node);
        forall n | n in old(w.elems)
          ensures n !in old(home.elems)
        {
          assert old(n.waitable) == w;
        }
        assert unchanged(w) && unchanged(old(w.elems));
      }
    }
    forall w, n | w in W && n in w.elems
      ensures n.waitable == w
    {
      WithoutIn(old(w.elems), node);
    }
  }

  /** A node leaves its queue and goes back to the pool. */
  method Retire(t: Tcb, node: WaitNode, ghost W: set<Waitable>)
    requires Linked(W) && t.PoolValid() && node in t.nodes && node.active
    requires node.waitable != null && node.waitable in W && node in node.waitable.elems
    modifies node.waitable, node, t`freeMask
    modifies (set n | n in node.waitable.elems)`next, (set n | n in node.waitable.elems)`prev
    ensures Linked(W) && t.PoolValid() && !node.active
    ensures forall w :: w in W ==> w.elems == Without(old(w.elems), node)
  {
    hide Linked, Tcb.PoolValid;
    LeaveQueue(t, node, W);
    GiveBack(t, node, W);
  }

  /** Leaving a queue does not touch the pool. */
  method LeaveQueue(t: Tcb, node: WaitNode, ghost W: set<Waitable>)
    requires Linked(W) && t.PoolValid() && node in t.nodes && node.active
    requires node.waitable != null && node.waitable in W && node in node.waitable.elems
    modifies node.waitable, node`waitable
    modifies (set n | n in node.waitable.elems)`next, (set n | n in node.waitable.elems)`prev
    ensures Linked(W) && t.PoolValid() && node.active
    ensures forall w :: w in W ==> w.elems == Without(old(w.elems), node)
    ensures forall w :: w in W ==> node !in w.elems
  {
    hide Linked, Bits.Bit;
    Leave(node, W);
    assert forall i :: 0 <= i < |t.nodes| ==> t.nodes[i].active == old(t.nodes[i].active);
  }

  /** Giving a node back does not touch the queues it has left. */
  method GiveBack(t: Tcb, node: WaitNode, ghost W: set<Waitable>)
    requires Linked(W) && t.PoolValid() && node in t.nodes && node.active && forall w :: w in W ==> node !in w.elems
    modifies node, t`freeMask
    ensures Linked(W) && t.PoolValid() && !node.active
    ensures forall w :: w in W ==> w.elems == old(w.elems)
  {
    hide Tcb.PoolValid;
    t.Free(node);
    forall w | w in W
      ensures w.Valid()
    {
      assert forall n :: n in w.elems ==> n != node && unchanged(n);
    }
  }

  /** The second pass of `teardown_wait_group`, one node: it leaves its queue
      and goes back to the pool. */
  method TearNode(t: Tcb, node: WaitNode, ghost W: set<Waitable>, ghost T: set<Tcb>, ghost N: set<WaitNode>)
    requires World(W, T, N) && t in T && node in t.nodes && node.active
    modifies W, t`freeMask, node, N`next, N`prev
    ensures World(W, T, N) && !node.active
    ensures forall w :: w in W ==> w.elems == Without(old(w.elems), node)
  {
    hide Linked;
    Retire(t, node, W);
    forall w, n | w in W && n in w.elems
      ensures Stands(n, w, T, N)
    {
      WithoutIn(old(w.elems), node);
      assert old(Stands(n, w, T, N));
    }
    forall u | u in T
      ensures Placed(u, W, N)
    {
      assert old(Placed(u, W, N));
      forall n | n in u.nodes && n.active
        ensures n.waitable in W && n in n.waitable.elems
      {
        WithoutIn(old(n.waitable.elems), node);
      }
    }
  }

  method TearSlot(t: Tcb, i: nat, ghost W: set<Waitable>, ghost T: set<Tcb>, ghost N: set<WaitNode>)
    requires World(W, T, N) && t in T && i < MAX_WAIT_NODES
    modifies W, t`freeMask, t.nodes[i], N`next, N`prev
    ensures World(W, T, N) && !t.nodes[i].active
    ensures forall w :: w in W ==> w.elems == Without(old(w.elems), t.nodes[i])
  {
    var node := t.nodes[i];
    if node.active {
      TearNode(t, node, W, T, N);
    } else {
      forall w | w in W
        ensures w.elems == Without(w.elems, node)
      {
        assert node !in w.elems;
        WithoutAbsent(w.elems, node);
      }
    }
  }

  lemma PoolOf(t: Tcb, W: set<Waitable>, T: set<Tcb>, N: set<WaitNode>)
    requires World(W, T, N) && t in T
    ensures Placed(t, W, N)
  {}

  lemma NodesOf(t: Tcb, W: set<Waitable>, T: set<Tcb>, N: set<WaitNode>)
    requires World(W, T, N) && t in T
    ensures |t.nodes| == MAX_WAIT_NODES && forall n :: n in t.nodes ==> n.tcb == t && n in N
  {
    assert Placed(t, W, N);
  }

  lemma AllBitsFree(t: Tcb)
    requires t.PoolValid() && forall n :: n in t.nodes ==> !n.active
    ensures t.AllFree()
  {
    forall k: nat
      ensures Bits.Bit(t.freeMask, k) <==> Bits.Bit(Bits.Pow2(MAX_WAIT_NODES) - 1, k)
    {
      LowBits(MAX_WAIT_NODES, k);
      if k >= MAX_WAIT_NODES { Bits.HighBits(t.freeMask, MAX_WAIT_NODES, k); }
      else { assert !t.nodes[k].active; }
    }
    Bits.SameBits(t.freeMask, Bits.Pow2(MAX_WAIT_NODES) - 1);
  }

  /** The first i slots of t are inactive and their nodes gone from the queues. */
  ghost predicate Torn(t: Tcb, i: nat, W: set<Waitable>, was: map<Waitable, seq<WaitNode>>)
    reads t`nodes, t.nodes, W
    requires |t.nodes| == MAX_WAIT_NODES && i <= MAX_WAIT_NODES
  {
    && W == was.Keys
    && (forall k :: 0 <= k < i ==> !t.nodes[k].active)
    && (forall w :: w in W ==> w.elems == DropSlots(was[w], t, i))
  }

  /** The nodes t had in a queue are those of its pool. */
  ghost predicate OwnNodes(t: Tcb, s: seq<WaitNode>)
    reads t`nodes
  {
    forall n :: n in s && n.tcb == t ==> n.slot < |t.nodes| && n == t.nodes[n.slot]
  }

  method TearNext(t: Tcb, i: nat, ghost was: map<Waitable, seq<WaitNode>>,
                  ghost W: set<Waitable>, ghost T: set<Tcb>, ghost N: set<WaitNode>)
    requires World(W, T, N) && t in T && i < MAX_WAIT_NODES == |t.nodes| && Torn(t, i, W, was)
    requires forall w :: w in W ==> OwnNodes(t, was[w])
    modifies W, t`freeMask, t.nodes[i], N`next, N`prev
    ensures World(W, T, N) && Torn(t, i + 1, W, was)
  {
    hide World;
    PoolOf(t, W, T, N);
    ghost var node := t.nodes[i];
    assert forall k :: 0 <= k < i ==> t.nodes[k].slot != node.slot;
    hide Placed;
    TearSlot(t, i, W, T, N);
    forall w | w in W
      ensures w.elems == DropSlots(was[w], t, i + 1)
    {
      DropNext(was[w], t, i, node);
    }
  }

  lemma TearBegin(t: Tcb, W: set<Waitable>, T: set<Tcb>, N: set<WaitNode>, was: map<Waitable, seq<WaitNode>>)
    requires World(W, T, N) && t in T && was == map w | w in W :: w.elems
    ensures |t.nodes| == MAX_WAIT_NODES && Torn(t, 0, W, was)
    ensures forall w :: w in W ==> OwnNodes(t, was[w])
  {
    assert Placed(t, W, N);
    forall w | w in W { DropNone(w.elems, t); }
  }

  lemma TearEnd(t: Tcb, W: set<Waitable>, T: set<Tcb>, N: set<WaitNode>, was: map<Waitable, seq<WaitNode>>)
    requires World(W, T, N) && t in T && |t.nodes| == MAX_WAIT_NODES && Torn(t, MAX_WAIT_NODES, W, was)
    ensures t.AllFree()
    ensures forall w :: w in W ==> w.elems == DropSlots(was[w], t, MAX_WAIT_NODES)
  {
    assert Placed(t, W, N);
    AllBitsFree(t);
  }

  /** The thread's nodes leave every queue, its pool is all free again, and all
      other waiters keep their places. */
  method Teardown(t: Tcb, ghost W: set<Waitable>, ghost T: set<Tcb>, ghost N: set<WaitNode>)
    requires World(W, T, N) && t in T
    modifies W, t`freeMask, t.nodes, N`next, N`prev
    ensures World(W, T, N) && t.AllFree()
    ensures forall w :: w in W ==> w.elems == DropSlots(old(w.elems), t, MAX_WAIT_NODES)
  {
    hide World, Torn, OwnNodes;
    ghost var was: map<Waitable, seq<WaitNode>> := map w | w in W :: w.elems;
    TearBegin(t, W, T, N, was);
    var i := 0;
    while i < MAX_WAIT_NODES
      invariant i <= MAX_WAIT_NODES && |t.nodes| == MAX_WAIT_NODES && World(W, T, N) && Torn(t, i, W, was)
      invariant forall w :: w in W ==> OwnNodes(t, was[w])
    {
      TearNext(t, i, was, W, T, N);
      i := i + 1;
    }
    TearEnd(t, W, T, N, was);
  }

  // ------------------------------------------------------------------ blocking

  /** What joining the first i of ws appends to w's queue. */
  function Joined(w: Waitable, ws: seq<Waitable>, nodes: seq<WaitNode>, i: nat): seq<WaitNode>
    requires i <= |ws| && i <= |nodes|
  {
    if i == 0 then [] else Joined(w, ws, nodes, i - 1) + (if ws[i - 1] == w then [nodes[i - 1]] else [])
  }

  /** Allocation alone: the node is active and in no queue yet. */
  method Take(t: Tcb, w: Waitable, index: nat, ghost W: set<Waitable>, ghost T: set<Tcb>, ghost N: set<WaitNode>)
    returns (node: WaitNode)
    requires World(W, T, N) && t in T && w in W && index < |t.nodes| && !t.nodes[index].active
    requires forall k :: 0 <= k < index ==> t.nodes[k].active
    modifies t`freeMask, (set n | n in t.nodes && !n.active)
    ensures node == t.nodes[index] && t.PoolValid() && Linked(W)
    ensures node.active && node.waitable == w && node.group == t.waitGroup && node.index == index && !node.IsEnqueued()
    ensures forall v :: v in W ==> node !in v.elems
    ensures forall n :: n in t.nodes && n != node ==> n.active == old(n.active) && n.waitable == old(n.waitable)
  {
    assert Placed(t, W, N);
    forall v, n | v in W && n in v.elems
      ensures n.active && n !in (set m | m in t.nodes && !m.active)
    {
      assert Stands(n, v, T, N);
    }
    var n := t.Alloc(w, index);
    node := n;
  }

  /** Queueing a node on w leaves every other queue as it was. */
  method Arrive(node: WaitNode, w: Waitable, ghost W: set<Waitable>)
    requires Linked(W) && w in W && node.waitable == w && !node.IsEnqueued()
    requires forall v :: v in W ==> node !in v.elems
    modifies w, node`waitable, node`next, node`prev, (set n | n in w.elems)`next
    ensures Linked(W) && w.elems == old(w.elems) + [node] && node.waitable == w
    ensures forall v :: v in W && v != w ==> v.elems == old(v.elems)
  {
    w.Add(node);
    forall v | v in W && v != w
      ensures v.Valid()
    {
      forall n | n in old(v.elems)
        ensures n !in old(w.elems)
      {
        assert old(n.waitable) == v;
      }
      assert unchanged(v) && unchanged(old(v.elems));
    }
  }

  /** Allocate a node for one waitable and queue it there. */
  method JoinQueue(t: Tcb, w: Waitable, index: nat, ghost W: set<Waitable>, ghost T: set<Tcb>, ghost N: set<WaitNode>)
    returns (node: WaitNode)
    requires World(W, T, N) && t in T && w in W && index < |t.nodes| && !t.nodes[index].active
    requires forall k :: 0 <= k < index ==> t.nodes[k].active
    modifies w, t`freeMask, (set n | n in t.nodes && !n.active), N`next, N`prev
    ensures World(W, T, N) && node == t.nodes[index]
    ensures node.active && node.waitable == w && node.index == index
    ensures w.elems == old(w.elems) + [node]
    ensures forall v :: v in W && v != w ==> v.elems == old(v.elems)
    ensures forall n :: n in t.nodes && n != node ==> n.active == old(n.active) && n.waitable == old(n.waitable)
  {
    hide Linked, Bits.Bit;
    node := Take(t, w, index, W, T, N);
    Arrive(node, w, W);
    forall v, n | v in W && n in v.elems
      ensures Stands(n, v, T, N)
    {
      if n != node { assert old(Stands(n, v, T, N)); }
    }
    forall u | u in T
      ensures Placed(u, W, N)
    {
      assert old(Placed(u, W, N));
    }
  }

  /** After i of the loop's rounds: t's first i nodes stand in the queues of the
      first i waitables, at their ends and in order. */
  ghost predicate Entered(t: Tcb, ws: seq<Waitable>, i: nat, W: set<Waitable>, was: map<Waitable, seq<WaitNode>>)
    reads t`nodes, t.nodes, W
    requires i <= |ws| <= |t.nodes|
  {
    && W == was.Keys
    && (forall w :: w in W ==> w.elems == was[w] + Joined(w, ws, t.nodes, i))
    && (forall k :: 0 <= k < i ==> t.nodes[k].active && t.nodes[k].waitable == ws[k] && t.nodes[k].index == k)
    && (forall k :: i <= k < |t.nodes| ==> !t.nodes[k].active)
  }

  method EnterNext(t: Tcb, ws: seq<Waitable>, i: nat, ghost was: map<Waitable, seq<WaitNode>>,
                   ghost W: set<Waitable>, ghost T: set<Tcb>, ghost N: set<WaitNode>)
    requires World(W, T, N) && t in T && i < |ws| <= |t.nodes| == MAX_WAIT_NODES && ws[i] in W
    requires Entered(t, ws, i, W, was)
    modifies W, t`freeMask, t.nodes, N`next, N`prev
    ensures World(W, T, N) && Entered(t, ws, i + 1, W, was)
  {
    hide World, Joined, Bits.Bit, Tcb.PoolValid, Placed;
    OthersThan(t, i, W, T, N);
    ghost var mid := map w | w in W :: w.elems;
    var node := JoinQueue(t, ws[i], i, W, T, N);
    EnteredMore(t, ws, i, W, was, mid);
  }

  lemma OthersThan(t: Tcb, i: nat, W: set<Waitable>, T: set<Tcb>, N: set<WaitNode>)
    requires World(W, T, N) && t in T && i < |t.nodes|
    ensures forall k :: 0 <= k < |t.nodes| && k != i ==> t.nodes[k] != t.nodes[i]
  {
    PoolOf(t, W, T, N);
    assert forall k :: 0 <= k < |t.nodes| && k != i ==> t.nodes[k].slot != t.nodes[i].slot;
  }

  lemma EnteredMore(t: Tcb, ws: seq<Waitable>, i: nat, W: set<Waitable>,
                    was: map<Waitable, seq<WaitNode>>, mid: map<Waitable, seq<WaitNode>>)
    requires i < |ws| <= |t.nodes| && W == was.Keys == mid.Keys && ws[i] in W
    requires forall w :: w in W ==> mid[w] == was[w] + Joined(w, ws, t.nodes, i)
    requires forall w :: w in W ==> w.elems == mid[w] + if w == ws[i] then [t.nodes[i]] else []
    requires forall k :: 0 <= k <= i ==> t.nodes[k].active && t.nodes[k].waitable == ws[k] && t.nodes[k].index == k
    requires forall k :: i < k < |t.nodes| ==> !t.nodes[k].active
    ensures Entered(t, ws, i + 1, W, was)
  {
    forall w | w in W
      ensures w.elems == was[w] + Joined(w, ws, t.nodes, i + 1)
    {
      var last := if w == ws[i] then [t.nodes[i]] else [];
      assert (was[w] + Joined(w, ws, t.nodes, i)) + last == was[w] + (Joined(w, ws, t.nodes, i) + last);
    }
  }

  lemma Unentered(t: Tcb, ws: seq<Waitable>, W: set<Waitable>, T: set<Tcb>, N: set<WaitNode>,
                  was: map<Waitable, seq<WaitNode>>)
    requires World(W, T, N) && t in T && |ws| <= MAX_WAIT_NODES && t.AllFree() && was == map w | w in W :: w.elems
    ensures |t.nodes| == MAX_WAIT_NODES && Entered(t, ws, 0, W, was)
  {
    PoolOf(t, W, T, N);
  }

  method BeginWait(t: Tcb, ghost W: set<Waitable>, ghost T: set<Tcb>, ghost N: set<WaitNode>)
    requires World(W, T, N) && t in T
    modifies t.waitGroup
    ensures World(W, T, N)
    ensures !t.waitGroup.done && t.waitGroup.winnerIndex == -1 && !t.waitGroup.acquired
  {
    t.waitGroup.Begin();
  }

  method SetState(t: Tcb, state: State, ghost W: set<Waitable>, ghost T: set<Tcb>, ghost N: set<WaitNode>)
    requires World(W, T, N)
    modifies t`state
    ensures World(W, T, N) && t.state == state
  {
    t.state := state;
  }

  /** `prepare_block`: the thread stands last in every queue it asked for, node k
      for waitable k, its wait is open, and nobody else has moved. */
  method PrepareBlock(t: Tcb, ws: seq<Waitable>, ghost W: set<Waitable>, ghost T: set<Tcb>, ghost N: set<WaitNode>)
    requires World(W, T, N) && t in T && t.state.Running? && t.AllFree()
    requires 0 < |ws| <= MAX_WAIT_NODES && forall w :: w in ws ==> w in W
    modifies W, t`freeMask, t`state, t.waitGroup, t.nodes, N`next, N`prev
    ensures World(W, T, N) && t.state.Blocked?
    ensures !t.waitGroup.done && t.waitGroup.winnerIndex == -1 && !t.waitGroup.acquired
    ensures |t.nodes| == MAX_WAIT_NODES
    ensures forall w :: w in W ==> w.elems == old(w.elems) + Joined(w, ws, t.nodes, |ws|)
    ensures forall k :: 0 <= k < |ws| ==> t.nodes[k].active && t.nodes[k].waitable == ws[k] && t.nodes[k].index == k
    ensures forall k :: |ws| <= k < MAX_WAIT_NODES ==> !t.nodes[k].active
  {
    hide *;
    ghost var was: map<Waitable, seq<WaitNode>> := map w | w in W :: w.elems;
    Unentered(t, ws, W, T, N, was);
    BeginWait(t, W, T, N);
    EnterAll(t, ws, was, W, T, N);
    SetState(t, Blocked, W, T, N);
    AllEntered(t, ws, W, was);
  }

  /** The loop of `prepare_block`. */
  method EnterAll(t: Tcb, ws: seq<Waitable>, ghost was: map<Waitable, seq<WaitNode>>,
                  ghost W: set<Waitable>, ghost T: set<Tcb>, ghost N: set<WaitNode>)
    requires World(W, T, N) && t in T && |ws| <= |t.nodes| == MAX_WAIT_NODES && forall w :: w in ws ==> w in W
    requires Entered(t, ws, 0, W, was)
    modifies W, t`freeMask, t.nodes, N`next, N`prev
    ensures World(W, T, N) && Entered(t, ws, |ws|, W, was)
  {
    hide *;
    var i := 0;
    while i < |ws|
      invariant i <= |ws| && World(W, T, N) && Entered(t, ws, i, W, was)
    {
      EnterNext(t, ws, i, was, W, T, N);
      i := i + 1;
    }
  }

  lemma AllEntered(t: Tcb, ws: seq<Waitable>, W: set<Waitable>, was: map<Waitable, seq<WaitNode>>)
    requires |ws| <= |t.nodes| && Entered(t, ws, |ws|, W, was)
    ensures W == was.Keys && forall w :: w in W ==> w.elems == was[w] + Joined(w, ws, t.nodes, |ws|)
    ensures forall k :: 0 <= k < |ws| ==> t.nodes[k].active && t.nodes[k].waitable == ws[k] && t.nodes[k].index == k
    ensures forall k :: |ws| <= k < |t.nodes| ==> !t.nodes[k].active
  {}

  // ----------------------------------------------------------------- signalling

  function Owners(s: seq<WaitNode>): (ts: seq<Tcb>)
    ensures |ts| == |s|
    ensures forall i :: 0 <= i < |s| ==> ts[i] == s[i].tcb
  {
    if s == [] then [] else [s[0].tcb] + Owners(s[1..])
  }

  /** A node whose wait some signal has already won. */
  predicate Decided(n: WaitNode)
    reads n, n.group
  {
    n.group != null && n.group.done
  }

  /** `pick_best`: the first of the most urgent nodes that are still undecided. */
  method PickBest(w: Waitable) returns (best: WaitNode?, ghost at: nat)
    requires w.Valid()
    ensures best == null ==> forall j :: 0 <= j < |w.elems| ==> Decided(w.elems[j])
    ensures best != null ==> at < |w.elems| && best == w.elems[at] && !Decided(best)
    ensures best != null ==> forall j :: 0 <= j < |w.elems| && !Decided(w.elems[j]) ==>
      best.tcb.priority <= w.elems[j].tcb.priority && (j < at ==> best.tcb.priority < w.elems[j].tcb.priority)
  {
    best, at := null, 0;
    var bestPriority := 255;
    var iter := w.head;
    ghost var i := 0;
    while iter != null
      invariant i <= |w.elems| && iter == (if i == |w.elems| then null else w.elems[i])
      invariant best == null ==> forall j :: 0 <= j < i ==> Decided(w.elems[j])
      invariant best != null ==>
        at < i && best == w.elems[at] && !Decided(best) && bestPriority == best.tcb.priority
      invariant best != null ==> forall j :: 0 <= j < i && !Decided(w.elems[j]) ==>
        best.tcb.priority <= w.elems[j].tcb.priority && (j < at ==> best.tcb.priority < w.elems[j].tcb.priority)
      decreases |w.elems| - i
    {
      if !Decided(iter) && (best == null || iter.tcb.priority < bestPriority) {
        best, at := iter, i;
        bestPriority := iter.tcb.priority;
      }
      iter := iter.next;
      i := i + 1;
    }
  }

  method Win(node: WaitNode, acquired: bool, ghost W: set<Waitable>, ghost T: set<Tcb>, ghost N: set<WaitNode>)
    returns (won: bool)
    requires World(W, T, N) && node.group != null
    modifies node.group
    ensures World(W, T, N) && node.group.done && won == !old(node.group.done)
    ensures won ==> node.group.winnerIndex == node.index && node.group.acquired == acquired
    ensures !won ==> unchanged(node.group)
  {
    won := node.group.TryWin(node.index, acquired);
  }

  /** `wake_thread`: the first signal to reach an undecided wait decides it, with
      its own index and flag, and ends it everywhere; a later one does nothing. */
  method Wake(node: WaitNode, acquired: bool, ghost W: set<Waitable>, ghost T: set<Tcb>, ghost N: set<WaitNode>)
    returns (won: bool)
    requires World(W, T, N) && node.tcb in T && node in node.tcb.nodes
    requires node.active && node.group == node.tcb.waitGroup && node.tcb.state.Blocked?
    modifies W, node.tcb`freeMask, node.tcb.nodes, node.tcb.waitGroup, N`next, N`prev
    ensures World(W, T, N) && node.tcb.waitGroup.done && won == !old(node.tcb.waitGroup.done)
    ensures won ==> node.tcb.waitGroup.winnerIndex == old(node.index) && node.tcb.waitGroup.acquired == acquired
    ensures won ==> node.tcb.AllFree()
    ensures won ==> forall w :: w in W ==> w.elems == DropSlots(old(w.elems), node.tcb, MAX_WAIT_NODES)
    ensures !won ==> unchanged(node.tcb.waitGroup) && unchanged(W) && unchanged(N)
  {
    hide World;
    won := Win(node, acquired, W, T, N);
    if won { Teardown(node.tcb, W, T, N); }
  }

  /** The queue, seen as threads, after all of t's nodes have been dropped. */
  lemma {:induction false} DropOwner(s: seq<WaitNode>, at: nat)
    requires at < |s| && s[at].slot < MAX_WAIT_NODES
    requires forall j :: 0 <= j < |s| && j != at ==> s[j].tcb != s[at].tcb
    ensures DropSlots(s, s[at].tcb, MAX_WAIT_NODES) == s[..at] + s[at + 1..]
    decreases |s|
  {
    var t := s[at].tcb;
    if at == 0 {
      DropStranger(s[1..], t);
    } else {
      assert s[1..][at - 1] == s[at];
      DropOwner(s[1..], at - 1);
      assert s[1..][..at - 1] == s[1..at] && s[1..][at..] == s[at + 1..];
      assert [s[0]] + s[1..at] == s[..at];
    }
  }

  lemma {:induction false} DropStranger(s: seq<WaitNode>, t: Tcb)
    requires forall j :: 0 <= j < |s| ==> s[j].tcb != t
    ensures DropSlots(s, t, MAX_WAIT_NODES) == s
  {
    if s != [] { DropStranger(s[1..], t); }
  }

  lemma OwnersConcat(s: seq<WaitNode>, r: seq<WaitNode>)
    ensures Owners(s + r) == Owners(s) + Owners(r)
  {
    hide Owners;
    forall i | 0 <= i < |s + r|
      ensures Owners(s + r)[i] == (Owners(s) + Owners(r))[i]
    {
      assert (s + r)[i] == if i < |s| then s[i] else r[i - |s|];
    }
  }

  lemma OwnersSlice(s: seq<WaitNode>, i: nat, j: nat)
    requires i <= j <= |s|
    ensures Owners(s[i..j]) == Owners(s)[i..j]
  {
    hide Owners;
  }

  lemma OwnersCut(s: seq<WaitNode>, at: nat)
    requires at < |s|
    ensures Owners(s[..at] + s[at + 1..]) == Cut(Owners(s), at)
  {
    hide Owners;
    OwnersConcat(s[..at], s[at + 1..]);
    OwnersSlice(s, 0, at);
    OwnersSlice(s, at + 1, |s|);
    var o := Owners(s);
    assert s[0..at] == s[..at] && s[at + 1..|s|] == s[at + 1..];
    assert o[0..at] == o[..at] && o[at + 1..|s|] == o[at + 1..];
  }

  /** No thread stands twice in the queue: `WaitableGroupLock` refuses duplicates. */
  ghost predicate Singles(s: seq<WaitNode>)
  {
    forall i, j :: 0 <= i < j < |s| ==> s[i].tcb != s[j].tcb
  }

  /** Blocked on an open wait, and in no ready queue. */
  ghost predicate Waits(t: Tcb, ready: ThreadReadyMatrix)
    reads t, t.waitGroup, ready
  {
    t.state.Blocked? && !t.waitGroup.done && t !in ready.Members() && t.priority < MAX_PRIORITIES && !t.IsEnqueued()
  }

  /** Every waiter of w is blocked on an open wait and can be made ready here. */
  ghost predicate Wakeable(w: Waitable, ready: ThreadReadyMatrix)
    reads *
  {
    Singles(w.elems) && forall n :: n in w.elems ==> Waits(n.tcb, ready)
  }

  /** So it is with every queue: what blocking and signalling on one core keep. */
  ghost predicate AllWakeable(W: set<Waitable>, ready: ThreadReadyMatrix)
    reads *
  {
    forall w :: w in W ==> Wakeable(w, ready)
  }

  /** Dropping a thread's nodes leaves none of them. */
  lemma {:induction false} DropSlotsIn(s: seq<WaitNode>, t: Tcb)
    requires forall n :: n in s ==> n.slot < MAX_WAIT_NODES
    ensures forall n :: n in DropSlots(s, t, MAX_WAIT_NODES) ==> n in s && n.tcb != t
  {
    if s != [] { DropSlotsIn(s[1..], t); }
  }

  lemma SinglesCons(n: WaitNode, s: seq<WaitNode>)
    requires Singles(s) && forall m :: m in s ==> m.tcb != n.tcb
    ensures Singles([n] + s)
  {
    assert forall j :: 0 <= j < |s| ==> s[j] in s;
  }

  lemma {:induction false} DropSlotsSingles(s: seq<WaitNode>, t: Tcb)
    requires Singles(s) && forall n :: n in s ==> n.slot < MAX_WAIT_NODES
    ensures Singles(DropSlots(s, t, MAX_WAIT_NODES))
  {
    if s != [] {
      var rest := s[1..];
      assert Singles(rest) && forall n :: n in rest ==> n in s && n.tcb != s[0].tcb;
      DropSlotsSingles(rest, t);
      DropSlotsIn(rest, t);
      var kept := DropSlots(rest, t, MAX_WAIT_NODES);
      assert [] + kept == kept;
      SinglesCons(s[0], kept);
    }
  }

  lemma {:induction false} JoinedNowhere(w: Waitable, ws: seq<Waitable>, nodes: seq<WaitNode>, i: nat)
    requires i <= |ws| && i <= |nodes| && w !in ws[..i]
    ensures Joined(w, ws, nodes, i) == []
  {
    if i > 0 {
      assert ws[..i] == ws[..i - 1] + [ws[i - 1]];
      JoinedNowhere(w, ws, nodes, i - 1);
    }
  }

  /** A thread that asks for different waitables joins each queue at most once. */
  lemma {:induction false} JoinedOnce(w: Waitable, ws: seq<Waitable>, nodes: seq<WaitNode>, i: nat)
    requires i <= |ws| && i <= |nodes| && Distinct(ws)
    ensures |Joined(w, ws, nodes, i)| <= 1 && forall n :: n in Joined(w, ws, nodes, i) ==> n in nodes
  {
    if i > 0 {
      JoinedOnce(w, ws, nodes, i - 1);
      if ws[i - 1] == w { JoinedNowhere(w, ws, nodes, i - 1); }
    }
  }

  lemma SinglesMore(s: seq<WaitNode>, more: seq<WaitNode>, t: Tcb)
    requires Singles(s) && |more| <= 1 && (forall n :: n in s ==> n.tcb != t) && forall n :: n in more ==> n.tcb == t
    ensures Singles(s + more)
  {
    assert forall i :: 0 <= i < |s| ==> s[i] in s;
    assert |more| == 1 ==> more[0] in more;
  }

  /** Blocking under the lock of the group, which refuses duplicates: the thread joins the queues, and every
      queue stays wakeable. */
  method BlockOn(t: Tcb, ws: seq<Waitable>, ghost ready: ThreadReadyMatrix,
                 ghost W: set<Waitable>, ghost T: set<Tcb>, ghost N: set<WaitNode>, ghost G: set<WaitGroup>)
    requires World(W, T, N) && OwnGroups(T, G) && t in T && t.state.Running? && t.AllFree()
    requires 0 < |ws| <= MAX_WAIT_NODES && Distinct(ws) && forall w :: w in ws ==> w in W
    requires t !in ready.Members() && t.priority < MAX_PRIORITIES && !t.IsEnqueued() && AllWakeable(W, ready)
    modifies W, t`freeMask, t`state, t.waitGroup, t.nodes, N`next, N`prev
    ensures World(W, T, N) && AllWakeable(W, ready) && Waits(t, ready) && |t.nodes| == MAX_WAIT_NODES
    ensures forall w :: w in W ==> w.elems == old(w.elems) + Joined(w, ws, t.nodes, |ws|)
    ensures forall k :: 0 <= k < |ws| ==> t.nodes[k].active && t.nodes[k].waitable == ws[k] && t.nodes[k].index == k
  {
    hide World, AllWakeable, Joined, Tcb.AllFree, Distinct, Waited;
    ghost var was: map<Waitable, seq<WaitNode>> := map v | v in W :: v.elems;
    ghost var others := Waiters(t, W, was, ready, T, N, G);
    PrepareBlock(t, ws, W, T, N);
    NodesOf(t, W, T, N);
    JoinedWakeable(t, ws, W, was, others, ready);
  }

  /** The queues hold the others, each at most once in each. */
  ghost predicate Waited(W: set<Waitable>, was: map<Waitable, seq<WaitNode>>, others: set<Tcb>)
  {
    W == was.Keys && (forall w :: w in W ==> Singles(was[w]))
    && forall w, n :: w in W && n in was[w] ==> n.tcb in others
  }

  lemma Waiters(t: Tcb, W: set<Waitable>, was: map<Waitable, seq<WaitNode>>, ready: ThreadReadyMatrix,
                T: set<Tcb>, N: set<WaitNode>, G: set<WaitGroup>)
    returns (others: set<Tcb>)
    requires World(W, T, N) && OwnGroups(T, G) && t in T && t.AllFree() && AllWakeable(W, ready)
    requires was == map v | v in W :: v.elems
    ensures Waited(W, was, others)
    ensures forall u :: u in others ==> u != t && u.waitGroup != t.waitGroup && Waits(u, ready)
  {
    PoolOf(t, W, T, N);
    others := set u | u in T && u != t && Waits(u, ready);
    forall w, n | w in W && n in was[w]
      ensures n.tcb in others
    {
      assert Stands(n, w, T, N) && Wakeable(w, ready);
    }
    forall w | w in W
      ensures Singles(was[w])
    {
      assert Wakeable(w, ready);
    }
  }

  lemma JoinedWakeable(t: Tcb, ws: seq<Waitable>, W: set<Waitable>, was: map<Waitable, seq<WaitNode>>,
                       others: set<Tcb>, ready: ThreadReadyMatrix)
    requires |ws| <= |t.nodes| && Distinct(ws) && (forall n :: n in t.nodes ==> n.tcb == t) && Waited(W, was, others)
    requires forall w :: w in W ==> w.elems == was[w] + Joined(w, ws, t.nodes, |ws|)
    requires Waits(t, ready) && forall u :: u in others ==> u != t && Waits(u, ready)
    ensures AllWakeable(W, ready)
  {
    hide Waits, Distinct, Joined;
    forall w | w in W
      ensures Wakeable(w, ready)
    {
      var more := Joined(w, ws, t.nodes, |ws|);
      JoinedOnce(w, ws, t.nodes, |ws|);
      SinglesMore(was[w], more, t);
    }
  }

  /** The queues after t has left them, if the others still wait. */
  lemma LeftWakeable(W: set<Waitable>, was: map<Waitable, seq<WaitNode>>, t: Tcb, ready: ThreadReadyMatrix)
    requires W == was.Keys && forall w :: w in W ==> w.elems == DropSlots(was[w], t, MAX_WAIT_NODES)
    requires forall w :: w in W ==> Singles(was[w])
    requires forall w, n :: w in W && n in was[w] ==>
      n.slot < MAX_WAIT_NODES && (n.tcb != t ==> Waits(n.tcb, ready))
    ensures AllWakeable(W, ready)
  {
    forall w | w in W
      ensures Wakeable(w, ready)
    {
      DropSlotsIn(was[w], t);
      DropSlotsSingles(was[w], t);
    }
  }

  /** Local `set_thread_ready`. */
  method MakeReady(t: Tcb, ready: ThreadReadyMatrix, ghost W: set<Waitable>, ghost T: set<Tcb>, ghost N: set<WaitNode>)
    requires World(W, T, N) && ready.Valid() && t !in ready.Members()
    requires t.priority < MAX_PRIORITIES && !t.IsEnqueued()
    modifies t`state, t`next, t`prev, ready, ready.matrix[..], ready.Members()`next
    ensures World(W, T, N) && ready.Valid() && t.state.Ready?
    ensures ready.queues == Enqueue(old(ready.queues), t.priority, t)
    ensures unchanged(W) && unchanged(N) && unchanged(t.waitGroup)
    ensures t.nodes == old(t.nodes) && t.freeMask == old(t.freeMask)
  {
    hide ThreadReadyMatrix.Valid, ThreadReadyMatrix.Members, Enqueue;
    t.state := Ready;
    ready.EnqueueThread(t);
    assert unchanged(W) && unchanged(N);
    forall w | w in W
      ensures w.Valid()
    {
      assert forall n :: n in w.elems ==> n in N;
    }
    forall w, n | w in W && n in w.elems
      ensures Stands(n, w, T, N)
    {
      assert old(Stands(n, w, T, N));
    }
    forall u | u in T
      ensures Placed(u, W, N)
    {
      assert old(Placed(u, W, N));
    }
  }

  lemma OpenQueue(w: Waitable, ready: ThreadReadyMatrix, W: set<Waitable>, T: set<Tcb>, N: set<WaitNode>)
    requires World(W, T, N) && w in W && Wakeable(w, ready)
    ensures w.Valid() && Singles(w.elems)
    ensures forall j :: 0 <= j < |w.elems| ==> Stands(w.elems[j], w, T, N) && !Decided(w.elems[j])
  {}

  /** With every wait open, the node `pick_best` returns is the best of the queue. */
  method PickOpen(w: Waitable, ready: ThreadReadyMatrix,
                  ghost W: set<Waitable>, ghost T: set<Tcb>, ghost N: set<WaitNode>)
    returns (best: WaitNode?, ghost at: nat)
    requires World(W, T, N) && w in W && Wakeable(w, ready)
    ensures best == null <==> w.elems == []
    ensures best != null ==> at < |w.elems| && best == w.elems[at] && IsBest(Owners(w.elems), at)
    ensures best != null ==> Stands(best, w, T, N)
  {
    hide World, Wakeable, Waitable.Valid, Owners;
    OpenQueue(w, ready, W, T, N);
    best, at := PickBest(w);
  }

  /** Making t ready leaves the waiters that are not t wakeable. */
  lemma MembersAfter(ready: ThreadReadyMatrix, m: Queues<Tcb>, t: Tcb, u: Tcb)
    requires t.priority < |m| && ready.queues == Enqueue(m, t.priority, t) && u != t
    requires forall p, i :: 0 <= p < |m| && 0 <= i < |m[p]| ==> m[p][i] != u
    ensures u !in ready.Members()
  {}

  lemma OpenNode(w: Waitable, at: nat, ready: ThreadReadyMatrix, W: set<Waitable>, T: set<Tcb>, N: set<WaitNode>)
    requires World(W, T, N) && w in W && Wakeable(w, ready) && at < |w.elems|
    ensures Stands(w.elems[at], w, T, N)
    ensures var t := w.elems[at].tcb;
      && t in T && w.elems[at] in t.nodes && w.elems[at].active && w.elems[at].group == t.waitGroup
      && |t.nodes| == MAX_WAIT_NODES && t.state.Blocked? && !t.waitGroup.done
      && t !in ready.Members() && t.priority < MAX_PRIORITIES && !t.IsEnqueued()
      && DropSlots(w.elems, t, MAX_WAIT_NODES) == w.elems[..at] + w.elems[at + 1..]
  {
    assert w.elems[at] in w.elems && Stands(w.elems[at], w, T, N);
    NodesOf(w.elems[at].tcb, W, T, N);
    OpenQueue(w, ready, W, T, N);
    DropOwner(w.elems, at);
  }

  lemma OthersNodes(w: Waitable, at: nat, ready: ThreadReadyMatrix, W: set<Waitable>, T: set<Tcb>, N: set<WaitNode>)
    requires World(W, T, N) && w in W && Wakeable(w, ready) && at < |w.elems|
    ensures forall n :: n in w.elems[..at] + w.elems[at + 1..] ==> n !in w.elems[at].tcb.nodes
  {
    OpenQueue(w, ready, W, T, N);
    NodesOf(w.elems[at].tcb, W, T, N);
  }

  /** Waiting, with the ready queues as rows gives them. */
  ghost predicate WaitsBeside(u: Tcb, rows: Queues<Tcb>)
    reads u, u.waitGroup
  {
    && u.state.Blocked? && !u.waitGroup.done && u.priority < MAX_PRIORITIES && !u.IsEnqueued()
    && forall p, i :: 0 <= p < |rows| && 0 <= i < |rows[p]| ==> rows[p][i] != u
  }

  /** Threads other than t that wait. */
  ghost predicate Bystanders(others: set<Tcb>, t: Tcb, rows: Queues<Tcb>)
    reads *
  {
    forall u :: u in others ==> u != t && u.waitGroup != t.waitGroup && WaitsBeside(u, rows)
  }

  /** The picked waiter wins its wait, leaves every queue, and joins the ready
      queue of its priority. */
  method WakePicked(node: WaitNode, ghost at: nat, w: Waitable, acquired: bool, ready: ThreadReadyMatrix,
                    ghost W: set<Waitable>, ghost T: set<Tcb>, ghost N: set<WaitNode>)
    requires World(W, T, N) && w in W && ready.Valid() && Wakeable(w, ready)
    requires at < |w.elems| && node == w.elems[at] && Stands(node, w, T, N)
    modifies W, node.tcb`freeMask, node.tcb.nodes, node.tcb.waitGroup, N`next, N`prev
    modifies node.tcb`state, node.tcb`next, node.tcb`prev, ready, ready.matrix[..], ready.Members()`next
    ensures World(W, T, N) && ready.Valid() && |ready.queues| == MAX_PRIORITIES == |old(ready.queues)|
    ensures w.elems == old(w.elems)[..at] + old(w.elems)[at + 1..]
    ensures forall v :: v in W ==> v.elems == DropSlots(old(v.elems), node.tcb, MAX_WAIT_NODES)
    ensures node.tcb.priority < MAX_PRIORITIES
    ensures ready.queues == Enqueue(old(ready.queues), node.tcb.priority, node.tcb)
    ensures node.tcb.state.Ready? && node.tcb.AllFree() && node.tcb.waitGroup.done
    ensures node.tcb.waitGroup.winnerIndex == old(node.index) && node.tcb.waitGroup.acquired == acquired
    ensures forall n :: n in w.elems ==> n.index == old(n.index)
  {
    hide World, Wakeable, Waitable.Valid, DropSlots, ThreadReadyMatrix.Valid, Stands;
    var t := node.tcb;
    OpenNode(w, at, ready, W, T, N);
    OthersNodes(w, at, ready, W, T, N);
    MatrixSize(ready);
    ghost var members := ready.Members();
    var won := Wake(node, acquired, W, T, N);
    forall n | n in w.elems
      ensures n.index == old(n.index)
    {
      assert n !in old(t.nodes);
    }
    assert unchanged(ready) && unchanged(ready.matrix) && unchanged(ready.matrix[..]) && unchanged(members);
    MakeReady(t, ready, W, T, N);
  }

  lemma MembersGrow(ready: ThreadReadyMatrix, m: Queues<Tcb>, t: Tcb)
    requires t.priority < |m| && ready.queues == Enqueue(m, t.priority, t)
    ensures ready.Members() <= (set p, i | 0 <= p < |m| && 0 <= i < |m[p]| :: m[p][i]) + {t}
  {}

  /** The picked waiter's wake, seen from the other queues: whoever waited and was not picked still waits. */
  method WakeAmong(node: WaitNode, ghost at: nat, w: Waitable, acquired: bool, ready: ThreadReadyMatrix,
                   ghost W: set<Waitable>, ghost T: set<Tcb>, ghost N: set<WaitNode>, ghost G: set<WaitGroup>)
    requires World(W, T, N) && OwnGroups(T, G) && w in W && ready.Valid() && Wakeable(w, ready)
    requires at < |w.elems| && node == w.elems[at] && Stands(node, w, T, N)
    modifies W, node.tcb`freeMask, node.tcb.nodes, node.tcb.waitGroup, N`next, N`prev
    modifies node.tcb`state, node.tcb`next, node.tcb`prev, ready, ready.matrix[..], ready.Members()`next
    ensures World(W, T, N) && ready.Valid() && |ready.queues| == MAX_PRIORITIES == |old(ready.queues)|
    ensures w.elems == old(w.elems)[..at] + old(w.elems)[at + 1..]
    ensures forall v :: v in W ==> v.elems == DropSlots(old(v.elems), node.tcb, MAX_WAIT_NODES)
    ensures node.tcb.priority < MAX_PRIORITIES
    ensures ready.queues == Enqueue(old(ready.queues), node.tcb.priority, node.tcb)
    ensures node.tcb.state.Ready? && node.tcb.AllFree() && node.tcb.waitGroup.done
    ensures node.tcb.waitGroup.winnerIndex == old(node.index) && node.tcb.waitGroup.acquired == acquired
    ensures forall n :: n in w.elems ==> n.index == old(n.index)
    ensures old(AllWakeable(W, ready)) ==> AllWakeable(W, ready)
  {
    hide World, Wakeable, AllWakeable, Waitable.Valid, DropSlots, ThreadReadyMatrix.Valid, Enqueue, Roll, Stands;
    ghost var was: map<Waitable, seq<WaitNode>> := map v | v in W :: v.elems;
    ghost var rows := ready.queues;
    ghost var all := AllWakeable(W, ready);
    ghost var others := Enrol(w, at, W, was, node.tcb, ready, T, N, G);
    WakePicked(node, at, w, acquired, ready, W, T, N);
    if all { OthersWait(W, was, node.tcb, others, rows, ready); }
  }

  /** One round of `signal_all`, and all of `signal_one`. */
  method WakeBest(w: Waitable, acquired: bool, ready: ThreadReadyMatrix,
                  ghost W: set<Waitable>, ghost T: set<Tcb>, ghost N: set<WaitNode>, ghost G: set<WaitGroup>)
    returns (node: WaitNode?, ghost at: nat)
    requires World(W, T, N) && OwnGroups(T, G) && w in W && ready.Valid() && Wakeable(w, ready)
    modifies W, N, G, T`freeMask, T`state, T`next, T`prev, ready, ready.matrix[..], ready.Members()`next
    ensures World(W, T, N) && ready.Valid() && |ready.queues| == MAX_PRIORITIES == |old(ready.queues)|
    ensures node == null <==> old(w.elems) == []
    ensures node == null ==> w.elems == [] && ready.queues == old(ready.queues)
    ensures node == null ==> forall v :: v in W ==> v.elems == old(v.elems)
    ensures node != null ==>
      && at < |old(w.elems)| && node == old(w.elems)[at] && IsBest(Owners(old(w.elems)), at)
      && w.elems == old(w.elems)[..at] + old(w.elems)[at + 1..]
      && node.tcb in T && node.tcb.priority < MAX_PRIORITIES
      && ready.queues == Enqueue(old(ready.queues), node.tcb.priority, node.tcb)
    ensures node != null ==>
      && node.tcb.state.Ready? && node.tcb.AllFree() && node.tcb.waitGroup.done
      && node.tcb.waitGroup.winnerIndex == old(node.index) && node.tcb.waitGroup.acquired == acquired
    ensures node != null ==> forall v :: v in W ==> v.elems == DropSlots(old(v.elems), node.tcb, MAX_WAIT_NODES)
    ensures forall u :: u in T && (node == null || u != node.tcb) ==>
      u.state == old(u.state) && unchanged(u.waitGroup)
    ensures forall u :: u in T && (node == null || u != node.tcb) && u !in old(ready.Members()) ==>
      u.next == old(u.next) && u.prev == old(u.prev)
    ensures forall n :: n in w.elems ==> n.index == old(n.index)
    ensures old(AllWakeable(W, ready)) ==> AllWakeable(W, ready)
  {
    hide World, Wakeable, AllWakeable, Waitable.Valid, DropSlots, ThreadReadyMatrix.Valid, IsBest, Owners, Enqueue;
    MatrixSize(ready);
    node, at := PickOpen(w, ready, W, T, N);
    if node == null { return; }
    NodesOf(node.tcb, W, T, N);
    hide Stands;
    WakeAmong(node, at, w, acquired, ready, W, T, N, G);
  }

  /** Nobody stands twice in a queue, and whoever stands in one is t or one of the others. */
  ghost predicate Roll(W: set<Waitable>, was: map<Waitable, seq<WaitNode>>, t: Tcb, others: set<Tcb>)
  {
    && W == was.Keys && (forall w :: w in W ==> Singles(was[w]))
    && forall w, n :: w in W && n in was[w] ==> n.slot < MAX_WAIT_NODES && (n.tcb == t || n.tcb in others)
  }

  lemma Enrol(w: Waitable, at: nat, W: set<Waitable>, was: map<Waitable, seq<WaitNode>>,
              t: Tcb, ready: ThreadReadyMatrix,
              T: set<Tcb>, N: set<WaitNode>, G: set<WaitGroup>)
    returns (others: set<Tcb>)
    requires World(W, T, N) && OwnGroups(T, G) && was == map v | v in W :: v.elems
    requires w in W && at < |w.elems| && t == w.elems[at].tcb && Stands(w.elems[at], w, T, N)
    ensures Bystanders(others, t, ready.queues) && (AllWakeable(W, ready) ==> Roll(W, was, t, others))
  {
    others := set u | u in T && u != t && WaitsBeside(u, ready.queues);
    if AllWakeable(W, ready) {
      forall v, n | v in W && n in v.elems
        ensures n.tcb in T && n.slot < MAX_WAIT_NODES && Waits(n.tcb, ready)
      {
        assert Stands(n, v, T, N) && Wakeable(v, ready);
        NodesOf(n.tcb, W, T, N);
      }
      forall v | v in W
        ensures Singles(v.elems)
      {
        assert Wakeable(v, ready);
      }
    }
  }

  lemma OthersWait(W: set<Waitable>, was: map<Waitable, seq<WaitNode>>, t: Tcb, others: set<Tcb>, rows: Queues<Tcb>,
                   ready: ThreadReadyMatrix)
    requires t.priority < |rows| && ready.queues == Enqueue(rows, t.priority, t)
    requires Roll(W, was, t, others) && forall w :: w in W ==> w.elems == DropSlots(was[w], t, MAX_WAIT_NODES)
    requires Bystanders(others, t, rows)
    ensures AllWakeable(W, ready)
  {
    forall u | u in others
      ensures Waits(u, ready)
    {
      MembersAfter(ready, rows, t, u);
    }
    LeftWakeable(W, was, t, ready);
  }

  lemma StillWakeable(s: seq<WaitNode>, at: nat)
    requires Singles(s) && at < |s|
    ensures Singles(s[..at] + s[at + 1..])
    ensures forall n :: n in s[..at] + s[at + 1..] ==> n in s && n.tcb != s[at].tcb
  {}

  /** s after the waits of all of ts have been torn down. */
  function DropAll(s: seq<WaitNode>, ts: seq<Tcb>): seq<WaitNode>
    decreases |ts|
  {
    if ts == [] then s else DropSlots(DropAll(s, ts[..|ts| - 1]), ts[|ts| - 1], MAX_WAIT_NODES)
  }

  /** What a signal leaves behind on each thread it wakes: its own index and flag. */
  ghost predicate Resolved(t: Tcb, index: nat, acquired: bool)
    reads t`state, t.waitGroup
  {
    t.state.Ready? && t.waitGroup.done && t.waitGroup.winnerIndex == index && t.waitGroup.acquired == acquired
  }

  /** What the queue w was when `signal_all` began, and what has become of it. */
  datatype Start = Start(nodes: seq<WaitNode>, index: map<WaitNode, nat>,
                         rows: Queues<Tcb>, all: map<Waitable, seq<WaitNode>>)

  ghost predicate Order(w: Waitable, woken: seq<Tcb>, start: Start)
    reads w
  {
    && woken + Woken(Owners(w.elems)) == Woken(Owners(start.nodes))
    && forall n :: n in w.elems ==> n in start.nodes
  }

  ghost predicate Rows(ready: ThreadReadyMatrix, woken: seq<Tcb>, start: Start)
    reads ready
  {
    && |start.rows| == MAX_PRIORITIES
    && (forall t :: t in woken ==> t.priority < MAX_PRIORITIES)
    && ready.queues == EnqueueAll(start.rows, woken, PriorityOf)
  }

  ghost predicate Drops(W: set<Waitable>, woken: seq<Tcb>, start: Start)
    reads W
  {
    W == start.all.Keys && forall v :: v in W ==> v.elems == DropAll(start.all[v], woken)
  }

  ghost predicate Results(w: Waitable, acquired: bool, start: Start)
    reads *
  {
    forall n :: n in start.nodes ==>
      && n in start.index
      && (if n in w.elems then n.index == start.index[n] else Resolved(n.tcb, start.index[n], acquired))
  }

  lemma OrderStep(s: seq<WaitNode>, at: nat, woken: seq<Tcb>)
    requires IsBest(Owners(s), at)
    ensures s[at].tcb == Owners(s)[at]
    ensures woken + Woken(Owners(s)) == (woken + [s[at].tcb]) + Woken(Owners(s[..at] + s[at + 1..]))
  {
    hide Owners, Woken, Cut;
    assert at < |s|;
    WokenStep(Owners(s), at);
    OwnersCut(s, at);
    hide IsBest;
    var rest := Woken(Cut(Owners(s), at));
    assert woken + ([s[at].tcb] + rest) == (woken + [s[at].tcb]) + rest;
  }

  lemma Inhabitants(w: Waitable, W: set<Waitable>, T: set<Tcb>, N: set<WaitNode>)
    requires World(W, T, N) && w in W
    ensures forall n :: n in w.elems ==> n.tcb in T
  {
    assert forall n :: n in w.elems ==> Stands(n, w, T, N);
  }

  lemma DropAllSnoc(s: seq<WaitNode>, ts: seq<Tcb>, t: Tcb)
    ensures DropAll(s, ts + [t]) == DropSlots(DropAll(s, ts), t, MAX_WAIT_NODES)
  {
    assert (ts + [t])[..|ts|] == ts;
  }

  /** The queue's first members are all threads of T, each there once. */
  ghost predicate Roster(start: Start, T: set<Tcb>)
  {
    Singles(start.nodes) && forall n :: n in start.nodes ==> n.tcb in T
  }

  ghost predicate Progress(w: Waitable, acquired: bool, ready: ThreadReadyMatrix, woken: seq<Tcb>, start: Start,
                           W: set<Waitable>, T: set<Tcb>)
    reads *
  {
    && Roster(start, T) && Wakeable(w, ready) && Order(w, woken, start)
    && Rows(ready, woken, start) && Drops(W, woken, start) && Results(w, acquired, start)
  }

  /** One round: the best remaining waiter joins the woken. */
  method SignalRound(w: Waitable, acquired: bool, ready: ThreadReadyMatrix, ghost woken: seq<Tcb>, ghost start: Start,
                     ghost W: set<Waitable>, ghost T: set<Tcb>, ghost N: set<WaitNode>, ghost G: set<WaitGroup>)
    returns (node: WaitNode?)
    requires World(W, T, N) && OwnGroups(T, G) && w in W && ready.Valid()
    requires Progress(w, acquired, ready, woken, start, W, T)
    modifies W, N, G, T`freeMask, T`state, T`next, T`prev, ready, ready.matrix[..], ready.Members()`next
    ensures World(W, T, N) && ready.Valid()
    ensures node == null <==> old(w.elems) == []
    ensures node == null ==> w.elems == [] && Progress(w, acquired, ready, woken, start, W, T)
    ensures node != null ==> |w.elems| < |old(w.elems)|
    ensures node != null ==> Progress(w, acquired, ready, woken + [node.tcb], start, W, T)
    ensures ready.Members() <= old(ready.Members()) + T
    ensures old(AllWakeable(W, ready)) ==> AllWakeable(W, ready)
  {
    hide World, AllWakeable, Waitable.Valid, DropSlots, DropAll, ThreadReadyMatrix.Valid, IsBest, Owners, Stands;
    hide Woken, EnqueueAll;
    Inhabitants(w, W, T, N);
    ghost var was := w.elems;
    ghost var rows := ready.queues;
    ghost var at;
    node, at := WakeBest(w, acquired, ready, W, T, N, G);
    if node != null {
      StillWakeable(was, at);
      forall n | n in w.elems
        ensures n.tcb.state.Blocked? && !n.tcb.waitGroup.done && n.tcb !in ready.Members() && !n.tcb.IsEnqueued()
      {
        assert n in was && n.tcb != node.tcb && n.tcb in T;
        assert n.tcb !in old(ready.Members());
        MembersAfter(ready, rows, node.tcb, n.tcb);
      }
      MembersGrow(ready, rows, node.tcb);
      OrderStep(was, at, woken);
      EnqueueAllSnoc(start.rows, woken, node.tcb, PriorityOf);
      forall v | v in W
        ensures v.elems == DropAll(start.all[v], woken + [node.tcb])
      {
        DropAllSnoc(start.all[v], woken, node.tcb);
      }
    }
  }

  lemma AtStart(w: Waitable, acquired: bool, ready: ThreadReadyMatrix, start: Start,
                W: set<Waitable>, T: set<Tcb>, N: set<WaitNode>)
    requires World(W, T, N) && w in W && ready.Valid() && Wakeable(w, ready)
    requires start.nodes == w.elems && start.rows == ready.queues
    requires start.all == map v | v in W :: v.elems
    requires start.index.Keys == (set n | n in w.elems) && forall n :: n in w.elems ==> start.index[n] == n.index
    ensures Progress(w, acquired, ready, [], start, W, T)
  {
    hide World, ThreadReadyMatrix.Valid, Owners, Woken, Stands;
    Inhabitants(w, W, T, N);
    MatrixSize(ready);
    assert [] + Woken(Owners(w.elems)) == Woken(Owners(start.nodes));
    assert Wakeable(w, ready) && Singles(w.elems);
    hide Wakeable;
    assert Results(w, acquired, start);
  }

  /** `signal_all`: terminates with the queue empty; wakes its threads in stable
      priority order; each ready queue grows by the woken threads; every woken
      thread leaves every queue it stood in, and its wait reports this waitable's
      index and this signal's flag. */
  method SignalAll(w: Waitable, acquired: bool, ready: ThreadReadyMatrix,
                   ghost W: set<Waitable>, ghost T: set<Tcb>, ghost N: set<WaitNode>, ghost G: set<WaitGroup>)
    returns (ghost woken: seq<Tcb>)
    requires World(W, T, N) && OwnGroups(T, G) && w in W && ready.Valid() && Wakeable(w, ready)
    modifies W, N, G, T`freeMask, T`state, T`next, T`prev, ready, ready.matrix[..], ready.Members()`next
    ensures World(W, T, N) && ready.Valid()
    ensures w.elems == []
    ensures woken == Woken(Owners(old(w.elems)))
    ensures |old(ready.queues)| == MAX_PRIORITIES && forall t :: t in woken ==> t.priority < MAX_PRIORITIES
    ensures ready.queues == EnqueueAll(old(ready.queues), woken, PriorityOf)
    ensures forall v :: v in W ==> v.elems == DropAll(old(v.elems), woken)
    ensures forall n :: n in old(w.elems) ==> Resolved(n.tcb, old(n.index), acquired)
    ensures old(AllWakeable(W, ready)) ==> AllWakeable(W, ready)
  {
    hide AllWakeable, World, Waitable.Valid, DropAll, ThreadReadyMatrix.Valid,
      Owners, Woken, EnqueueAll, Wakeable, Progress;
    ghost var start := Start(w.elems, map n | n in w.elems :: n.index, ready.queues, map v | v in W :: v.elems);
    AtStart(w, acquired, ready, start, W, T, N);
    ghost var members := ready.Members();
    woken := [];
    var more := true;
    while more
      invariant World(W, T, N) && ready.Valid() && Progress(w, acquired, ready, woken, start, W, T)
      invariant ready.Members() <= members + T
      invariant old(AllWakeable(W, ready)) ==> AllWakeable(W, ready)
      invariant !more ==> w.elems == []
      decreases more, |w.elems|
    {
      var node := SignalRound(w, acquired, ready, woken, start, W, T, N, G);
      if node == null { more := false; } else { woken := woken + [node.tcb]; }
    }
    Finished(w, acquired, ready, woken, start, W, T);
  }

  lemma Finished(w: Waitable, acquired: bool, ready: ThreadReadyMatrix, woken: seq<Tcb>, start: Start,
                 W: set<Waitable>, T: set<Tcb>)
    requires Progress(w, acquired, ready, woken, start, W, T) && w.elems == []
    ensures woken == Woken(Owners(start.nodes))
    ensures |start.rows| == MAX_PRIORITIES && forall t :: t in woken ==> t.priority < MAX_PRIORITIES
    ensures ready.queues == EnqueueAll(start.rows, woken, PriorityOf)
    ensures W == start.all.Keys && forall v :: v in W ==> v.elems == DropAll(start.all[v], woken)
    ensures forall n :: n in start.nodes ==> n in start.index && Resolved(n.tcb, start.index[n], acquired)
  {
    assert woken + [] == woken;
  }
}
