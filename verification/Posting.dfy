/** Why `post_to_inbox` finds room: when no value is pushed again before its pop has returned, a ring is
    never full for as many values as it has cells. */
module Posting {
  import opened PriorityFifo
  import opened Ring

  /** Inside `push` and not yet in the claim order. */
  predicate Unclaimed(p: Producer)
  {
    p.AtLoadSequence? || p.AtReload? || p.AtClaim?
  }

  ghost predicate Claimed(s: Ring, v: Item)
  {
    exists pos: int :: 0 <= pos && Freed(s) <= pos < |s.claimed| && s.claimed[pos] == v
  }

  ghost predicate Offered(s: Ring, i: nat, v: Item)
  {
    i < |s.producers| && Unclaimed(s.producers[i]) && s.producers[i].v == v
  }

  /** From the start of its push until its pop has returned. */
  ghost predicate Outstanding(s: Ring, v: Item)
  {
    Claimed(s, v) || exists i: nat :: Offered(s, i, v)
  }

  ghost predicate OneAtATime(s: Ring, a: Step, all: set<Item>)
  {
    a.LoadHead? ==> a.v in all && !Outstanding(s, a.v)
  }

  ghost predicate OneEach(s: Ring, all: set<Item>)
  {
    && (forall pos: int, q: int :: 0 <= pos && Freed(s) <= pos < q < |s.claimed| ==> s.claimed[pos] != s.claimed[q])
    && (forall i: nat, j: nat, v :: Offered(s, i, v) && Offered(s, j, v) ==> i == j)
    && (forall i: nat, v :: Offered(s, i, v) ==> !Claimed(s, v))
    && (forall v :: Outstanding(s, v) ==> v in all)
  }

  lemma KeepOffer(s: Ring, r: Ring, i: nat, v: Item, all: set<Item>)
    requires Inv(s) && OneEach(s, all) && v in all && !Outstanding(s, v) && i < |s.producers|
    requires r == At(s, i, AtLoadSequence(v, s.head)) && s.producers[i].Outside?
    ensures OneEach(r, all)
  {
    assert forall j: nat, u :: Offered(r, j, u) <==> Offered(s, j, u) || (j == i && u == v);
    assert forall u :: Claimed(r, u) == Claimed(s, u);
  }

  lemma KeepClaimed(s: Ring, r: Ring, i: nat, v: Item, all: set<Item>)
    requires Inv(s) && OneEach(s, all) && Offered(s, i, v)
    requires r == At(s, i, AtConstruct(v, s.head)).(head := s.head + 1, claimed := s.claimed + [v])
    ensures OneEach(r, all)
  {
    assert forall j: nat, u :: Offered(r, j, u) <==> Offered(s, j, u) && j != i;
    forall u ensures Claimed(r, u) <==> Claimed(s, u) || u == v {
      if Claimed(s, u) {
        var pos: int :| 0 <= pos && Freed(s) <= pos < |s.claimed| && s.claimed[pos] == u;
        assert r.claimed[pos] == u;
      }
      assert r.claimed[|s.claimed|] == v;
    }
    forall pos: int, q: int | 0 <= pos && Freed(r) <= pos < q < |r.claimed| ensures r.claimed[pos] != r.claimed[q] {
      if q == |s.claimed| { assert !Claimed(s, v); }
    }
  }

  /** The other steps offer nothing new, and claim nothing. */
  lemma KeepRest(s: Ring, r: Ring, all: set<Item>)
    requires Inv(s) && OneEach(s, all) && r.claimed == s.claimed && Freed(r) >= Freed(s)
    requires forall j: nat, u :: Offered(r, j, u) ==> Offered(s, j, u)
    ensures OneEach(r, all)
  {
    assert forall u :: Claimed(r, u) ==> Claimed(s, u);
  }

  lemma KeepOneEach(s: Ring, a: Step, all: set<Item>)
    requires Inv(s) && Enabled(s, a) && OneEach(s, all) && OneAtATime(s, a, all)
    ensures OneEach(Next(s, a), all)
  {
    var r := Next(s, a);
    match a
    case LoadHead(i, v) => KeepOffer(s, r, i, v, all);
    case Claim(i, spurious) =>
      if s.head == s.producers[i].pos && !spurious {
        KeepClaimed(s, r, i, s.producers[i].v, all);
      } else {
        KeepRest(s, r, all);
      }
    case _ => KeepRest(s, r, all);
  }

  /** With all n positions occupied there is no further value to offer. */
  lemma NotFull(s: Ring, i: nat, all: set<Item>)
    requires Inv(s) && OneEach(s, all) && |all| <= s.n && i < |s.producers| && Unclaimed(s.producers[i])
    ensures Occupancy(s) < s.n
  {
    var v := s.producers[i].v;
    assert Offered(s, i, v);
    var ts := s.claimed[Freed(s)..];
    forall k | 0 <= k < |ts| ensures ts[k] in all && ts[k] != v {
      assert s.claimed[Freed(s) + k] == ts[k];
      assert Claimed(s, ts[k]) && Outstanding(s, ts[k]);
    }
    assert forall t :: t in ts + [v] ==> t in ts || t == v;
    DistinctFits(ts + [v], all);
  }

  ghost predicate Posts(s: Ring, run: seq<Step>, all: set<Item>)
    requires Shaped(s)
    decreases |run|
  {
    run != [] ==> Enabled(s, run[0]) && OneAtATime(s, run[0], all) && Posts(After(s, run[0]), run[1..], all)
  }

  ghost function After(s: Ring, a: Step): (r: Ring)
    requires Shaped(s) && Enabled(s, a)
    ensures Shaped(r)
  {
    NextShaped(s, a);
    Next(s, a)
  }

  lemma {:induction false} KeepPosts(s: Ring, run: seq<Step>, all: set<Item>)
    requires Inv(s) && OneEach(s, all) && Posts(s, run, all)
    ensures Exec(s, run).Some? && Inv(Exec(s, run).value)
    ensures OneEach(Exec(s, run).value, all) && Exec(s, run).value.n == s.n
    decreases |run|
  {
    if run != [] {
      Keep(s, run[0]);
      KeepOneEach(s, run[0], all);
      assert Next(s, run[0]).n == s.n;
      hide Inv, Next, Enabled, OneEach, OneAtATime;
      KeepPosts(Next(s, run[0]), run[1..], all);
    }
  }

  /** Over every run of a ring of n cells in which at most n values are ever outstanding, each at most once,
      `push` never returns false. */
  lemma NeverRefused(n: nat, producers: nat, observers: nat, all: set<Item>, run: seq<Step>, i: nat)
    requires n >= 2 && |all| <= n && Posts(Init(n, producers, observers), run, all)
    ensures var end := Exec(Init(n, producers, observers), run);
      && end.Some? && Shaped(end.value)
      && (Enabled(end.value, LoadSequence(i)) ==> Next(end.value, LoadSequence(i)).producers[i] != Outside)
  {
    var s0 := Init(n, producers, observers);
    InitInv(n, producers, observers);
    assert OneEach(s0, all);
    KeepPosts(s0, run, all);
    var s := Exec(s0, run).value;
    if Enabled(s, LoadSequence(i)) {
      NotFull(s, i, all);
      SequenceSeen(s, s.producers[i].pos);
    }
  }
}
