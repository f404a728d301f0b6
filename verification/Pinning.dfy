/** `pin_thread_to_core`: the load-balancing choice of a core at registration. */
module Pinning {
  import opened Options
  import opened Numbers
  import Bits

  /** `uint32_t`'s largest value, which the search starts from. */
  const NO_LOAD: nat := 0xFFFF_FFFF

  /** `CoreAffinity::allows`. */
  function Allows(mask: nat, core: nat): (r: bool)
    ensures r <==> Bits.Bit(mask, core)
  {
    AllowsBit(mask, core);
    Bits.And(mask, Bits.Pow2(core)) != 0
  }

  lemma AllowsBit(mask: nat, core: nat)
    ensures Bits.And(mask, Bits.Pow2(core)) != 0 <==> Bits.Bit(mask, core)
  {
    var x := Bits.And(mask, Bits.Pow2(core));
    forall k: nat
      ensures Bits.Bit(x, k) <==> k == core && Bits.Bit(mask, core)
    {
      Bits.BitAnd(mask, Bits.Pow2(core), k);
      Bits.BitPow2(core, k);
    }
    if x == 0 {
      Bits.NoBits(core);
    } else {
      Bits.LowestBit(x);
    }
  }

  /** The first allowed core of least load. */
  ghost predicate IsChoice(loads: seq<nat>, mask: nat, n: nat, c: nat)
    requires n <= |loads|
  {
    && c < n && Bits.Bit(mask, c) && loads[c] < NO_LOAD
    && (forall d :: 0 <= d < n && Bits.Bit(mask, d) ==> loads[c] <= loads[d])
    && (forall d :: 0 <= d < c && Bits.Bit(mask, d) ==> loads[c] < loads[d])
  }

  function Chosen(loads: seq<nat>, mask: nat, n: nat): (c: Option<nat>)
    requires n <= |loads|
    ensures c.Some? ==> IsChoice(loads, mask, n, c.value)
    ensures c.None? ==> forall d :: 0 <= d < n && Bits.Bit(mask, d) ==> loads[d] >= NO_LOAD
  {
    if n == 0 then None else
      var best := Chosen(loads, mask, n - 1);
      if Allows(mask, n - 1) && loads[n - 1] < (if best.Some? then loads[best.value] else NO_LOAD)
        then Some(n - 1) else best
  }

  class Kernel {
    var loads: seq<nat>

    constructor (cores: nat)
      ensures loads == seq(cores, _ => 0)
    {
      loads := seq(cores, _ => 0);
    }

    /** None where the source asserts that a core was found. */
    method PinThread(mask: nat) returns (core: Option<nat>)
      modifies this
      ensures core.None? <==> forall d :: 0 <= d < |old(loads)| && Bits.Bit(mask, d) ==> old(loads)[d] >= NO_LOAD
      ensures core.None? ==> loads == old(loads)
      ensures core.Some? ==>
        IsChoice(old(loads), mask, |old(loads)|, core.value)
        && loads == old(loads)[core.value := old(loads)[core.value] + 1]
    {
      var bestCore, bestLoad, found, core' := NO_LOAD, NO_LOAD, false, 0;
      while core' < |loads|
        invariant core' <= |loads|
        invariant found == Chosen(loads, mask, core').Some?
        invariant found ==> bestCore == Chosen(loads, mask, core').value && bestLoad == loads[bestCore]
        invariant !found ==> bestLoad == NO_LOAD
      {
        if Allows(mask, core') {
          var load := loads[core'];
          if load < bestLoad {
            bestLoad, bestCore, found := load, core', true;
          }
        }
        core' := core' + 1;
      }
      if !found { return None; }
      loads := loads[bestCore := loads[bestCore] + 1];
      return Some(bestCore);
    }
  }

  // ------------------------------------------------------- runs of registrations

  /** The loads after registering threads with these affinities in turn; None if some thread is allowed nowhere. */
  function RegisterAll(loads: seq<nat>, masks: seq<nat>): Option<seq<nat>>
    decreases |masks|
  {
    if masks == [] then Some(loads) else
      match RegisterAll(loads, masks[..|masks| - 1])
      case None => None
      case Some(l) =>
        match Chosen(l, masks[|masks| - 1], |l|)
        case None => None
        case Some(c) => Some(l[c := l[c] + 1])
  }

  function Sum(s: seq<nat>): nat
  {
    if s == [] then 0 else s[0] + Sum(s[1..])
  }

  lemma {:induction false} SumOfOneMore(s: seq<nat>, c: nat)
    requires c < |s|
    ensures Sum(s[c := s[c] + 1]) == Sum(s) + 1
  {
    if c == 0 {
      assert s[0 := s[0] + 1][1..] == s[1..];
    } else {
      assert s[c := s[c] + 1][1..] == s[1..][c - 1 := s[1..][c - 1] + 1];
      SumOfOneMore(s[1..], c - 1);
    }
  }

  /** Every registration is counted once, whatever the affinities. */
  lemma {:induction false} CountersSum(loads: seq<nat>, masks: seq<nat>)
    ensures RegisterAll(loads, masks).Some? ==>
      var l := RegisterAll(loads, masks).value;
      |l| == |loads| && Sum(l) == Sum(loads) + |masks|
    decreases |masks|
  {
    if masks != [] {
      var before := RegisterAll(loads, masks[..|masks| - 1]);
      CountersSum(loads, masks[..|masks| - 1]);
      if before.Some? {
        var c := Chosen(before.value, masks[|masks| - 1], |before.value|);
        if c.Some? { SumOfOneMore(before.value, c.value); }
      }
    }
  }

  /** Round robin: n / k each, and one more for the first n % k. */
  ghost predicate Spread(l: seq<nat>, k: nat, n: nat)
    requires k > 0
  {
    |l| == k && forall c :: 0 <= c < k ==> l[c] == n / k + if c < n % k then 1 else 0
  }

  /** One more dealt out: the quotient grows when a round is complete. */
  lemma NextShare(n: nat, k: nat)
    requires k > 0
    ensures n % k < k
    ensures n % k + 1 == k ==> (n + 1) / k == n / k + 1 && (n + 1) % k == 0
    ensures n % k + 1 < k ==> (n + 1) / k == n / k && (n + 1) % k == n % k + 1
  {
    var q, t := n / k, n % k;
    assert n == k * q + t;
    if t + 1 == k {
      assert k * (q + 1) == k * q + k;
      DivUnique(n + 1, k, q + 1, 0);
    } else {
      DivUnique(n + 1, k, q, t + 1);
    }
  }

  lemma ChosenInTurn(l: seq<nat>, mask: nat, k: nat, q: nat, t: nat)
    requires |l| == k && t < k && q < NO_LOAD && (forall c: nat :: c < k ==> Bits.Bit(mask, c))
    requires forall c :: 0 <= c < k ==> l[c] == q + if c < t then 1 else 0
    ensures Chosen(l, mask, k) == Some(t)
  {
    assert l[t] == q && Bits.Bit(mask, t);
    var c := Chosen(l, mask, k);
    if c.Some? { assert Bits.Bit(mask, c.value); }
  }

  lemma NextInTurn(l: seq<nat>, mask: nat, k: nat, n: nat)
    requires k > 0 && Spread(l, k, n) && n / k < NO_LOAD && forall c: nat :: c < k ==> Bits.Bit(mask, c)
    ensures Chosen(l, mask, k) == Some(n % k) && n % k < k && Spread(l[n % k := l[n % k] + 1], k, n + 1)
  {
    NextShare(n, k);
    ChosenInTurn(l, mask, k, n / k, n % k);
  }

  /** Threads that may run anywhere are dealt out in turn: after n of them the counters are within one of
      each other, the larger ones first. */
  lemma {:induction false} EvenSpread(k: nat, masks: seq<nat>)
    requires k > 0 && |masks| <= NO_LOAD
    requires forall m, c: nat :: m in masks && c < k ==> Bits.Bit(m, c)
    ensures RegisterAll(seq(k, _ => 0), masks).Some? && Spread(RegisterAll(seq(k, _ => 0), masks).value, k, |masks|)
    decreases |masks|
  {
    if masks == [] {
      DivUnique(0, k, 0, 0);
    } else {
      hide RegisterAll, Spread, Chosen;
      var n := |masks| - 1;
      assert masks[n] in masks && forall m :: m in masks[..n] ==> m in masks;
      EvenSpread(k, masks[..n]);
      QuotientBound(n, k);
      var l := RegisterAll(seq(k, _ => 0), masks[..n]).value;
      NextInTurn(l, masks[n], k, n);
      RegisterLast(seq(k, _ => 0), masks, l, n % k);
    }
  }

  lemma RegisterLast(loads: seq<nat>, masks: seq<nat>, l: seq<nat>, c: nat)
    requires masks != [] && RegisterAll(loads, masks[..|masks| - 1]) == Some(l)
    requires c < |l| && Chosen(l, masks[|masks| - 1], |l|) == Some(c)
    ensures RegisterAll(loads, masks) == Some(l[c := l[c] + 1])
  {}

  lemma QuotientBound(n: nat, k: nat)
    requires k > 0
    ensures n / k <= n
  {
    var q := n / k;
    assert n == k * q + n % k;
    if q >= 1 { Multiple(q, k); }
  }
}
