/** `MpscRingBuffer` as the object its callers see: each method, run without
    interference, performs a run of the step machine of module Ring and acts on
    the buffer as a bounded queue does. */
module RingBuffer {
  import opened Options
  import opened Ring

  const PUSH := (v: Item) => [LoadHead(0, v), LoadSequence(0), Claim(0, false), Construct(0), Publish(0)]
  const POP := [PopLoadTail, PopCheck, PopAdvance, PopTake, PopFree]

  /** One idle producer and a resting consumer. */
  ghost predicate Quiet(s: Ring)
  {
    Inv(s) && s.producers == [Outside] && s.consumer.Resting?
  }

  ghost function Queue(s: Ring): seq<Item>
    requires Quiet(s)
  {
    s.claimed[s.tail..]
  }

  lemma ExecCons(s: Ring, a: Step, run: seq<Step>)
    requires Inv(s) && Enabled(s, a)
    ensures Inv(Next(s, a)) && Exec(s, [a] + run) == Exec(Next(s, a), run)
  {
    Keep(s, a);
    assert ([a] + run)[1..] == run;
  }

  /** A step of the lone producer. */
  lemma StepTo(s: Ring, a: Step, p: Producer, run: seq<Step>)
    requires Inv(s) && |s.producers| == 1 && Enabled(s, a) && Next(s, a).producers == s.producers[0 := p]
    ensures Inv(Next(s, a)) && Next(s, a).producers == [p] && Exec(s, [a] + run) == Exec(Next(s, a), run)
  {
    ExecCons(s, a, run);
  }

  lemma PushClaims(s: Ring, v: Item, run: seq<Step>) returns (s': Ring)
    requires Quiet(s) && s.head < s.tail + s.n
    ensures s.sequence[s.head % s.n] == s.head
    ensures s' == s.(producers := [AtClaim(v, s.head)]) && Inv(s')
    ensures Exec(s, [LoadHead(0, v)] + ([LoadSequence(0)] + run)) == Exec(s', run)
  {
    assert CellInv(s, s.head);
    StepTo(s, LoadHead(0, v), AtLoadSequence(v, s.head), [LoadSequence(0)] + run);
    var s1 := Next(s, LoadHead(0, v));
    StepTo(s1, LoadSequence(0), AtClaim(v, s.head), run);
    s' := Next(s1, LoadSequence(0));
  }

  lemma PushFills(s: Ring, v: Item) returns (s': Ring)
    requires Inv(s) && s.producers == [AtClaim(v, s.head)]
    ensures s' == s.(producers := [Outside], head := s.head + 1, claimed := s.claimed + [v],
                     sequence := s.sequence[s.head % s.n := s.head + 1],
                     storage := s.storage[s.head % s.n := Some(v)])
    ensures Inv(s')
    ensures Exec(s, [Claim(0, false)] + ([Construct(0)] + ([Publish(0)] + []))) == Some(s')
  {
    StepTo(s, Claim(0, false), AtConstruct(v, s.head), [Construct(0)] + ([Publish(0)] + []));
    var s1 := Next(s, Claim(0, false));
    StepTo(s1, Construct(0), AtPublish(v, s.head), [Publish(0)] + []);
    var s2 := Next(s1, Construct(0));
    StepTo(s2, Publish(0), Outside, []);
    s' := Next(s2, Publish(0));
  }

  lemma SoloPush(s: Ring, v: Item)
    requires Quiet(s) && s.head < s.tail + s.n
    ensures var c := s.head % s.n;
      var s' := s.(head := s.head + 1, claimed := s.claimed + [v],
                   sequence := s.sequence[c := s.head + 1], storage := s.storage[c := Some(v)]);
      && s.sequence[c] == s.head && Exec(s, PUSH(v)) == Some(s') && Quiet(s') && Queue(s') == Queue(s) + [v]
  {
    var rest := [Claim(0, false)] + ([Construct(0)] + ([Publish(0)] + []));
    assert PUSH(v) == [LoadHead(0, v)] + ([LoadSequence(0)] + rest);
    var s1 := PushClaims(s, v, rest);
    var s2 := PushFills(s1, v);
  }

  lemma PopFinds(s: Ring, run: seq<Step>) returns (s': Ring)
    requires Quiet(s) && s.tail < s.head
    ensures s.sequence[s.tail % s.n] == s.tail + 1 && s.storage[s.tail % s.n] == Some(s.claimed[s.tail])
    ensures s' == s.(consumer := AtAdvance(s.tail)) && Inv(s')
    ensures Exec(s, [PopLoadTail] + ([PopCheck] + run)) == Exec(s', run)
  {
    assert CellInv(s, s.tail);
    ExecCons(s, PopLoadTail, [PopCheck] + run);
    var s1 := Next(s, PopLoadTail);
    ExecCons(s1, PopCheck, run);
    s' := Next(s1, PopCheck);
  }

  lemma PopTakes(s: Ring) returns (s': Ring)
    requires Inv(s) && s.consumer.AtAdvance? && s.storage[s.tail % s.n] == Some(s.claimed[s.tail])
    ensures s' == s.(consumer := Resting, tail := s.tail + 1, popped := s.popped + [Some(s.claimed[s.tail])],
                     sequence := s.sequence[s.tail % s.n := s.tail + s.n],
                     storage := s.storage[s.tail % s.n := None])
    ensures Inv(s')
    ensures Exec(s, [PopAdvance] + ([PopTake] + ([PopFree] + []))) == Some(s')
  {
    ExecCons(s, PopAdvance, [PopTake] + ([PopFree] + []));
    var s1 := Next(s, PopAdvance);
    ExecCons(s1, PopTake, [PopFree] + []);
    var s2 := Next(s1, PopTake);
    ExecCons(s2, PopFree, []);
    s' := Next(s2, PopFree);
  }

  lemma SoloPop(s: Ring)
    requires Quiet(s) && s.tail < s.head
    ensures var c := s.tail % s.n;
      var s' := s.(tail := s.tail + 1, popped := s.popped + [Some(s.claimed[s.tail])],
                   sequence := s.sequence[c := s.tail + s.n], storage := s.storage[c := None]);
      && s.sequence[c] == s.tail + 1 && s.storage[c] == Some(s.claimed[s.tail])
      && Exec(s, POP) == Some(s') && Quiet(s') && Queue(s') == Queue(s)[1..]
  {
    var rest := [PopAdvance] + ([PopTake] + ([PopFree] + []));
    assert POP == [PopLoadTail] + ([PopCheck] + rest);
    var s1 := PopFinds(s, rest);
    var s2 := PopTakes(s1);
  }

  class MpscRingBuffer {
    const n: nat
    const sequence: array<nat>
    const storage: array<Option<Item>>
    var head: nat
    var tail: nat
    ghost var claimed: seq<Item>
    ghost var popped: seq<Option<Item>>

    ghost function View(): Ring
      reads this, sequence, storage
    {
      Ring(n, head, tail, sequence[..], storage[..], [Outside], Resting, [], claimed, popped)
    }

    ghost predicate Valid()
      reads this, sequence, storage
    {
      Quiet(View())
    }

    ghost function Contents(): seq<Item>
      requires Valid()
      reads this, sequence, storage
    {
      Queue(View())
    }

    constructor (n: nat)
      requires n > 0
      ensures this.n == n && (n >= 2 ==> Valid() && Contents() == [])
      ensures View() == Init(n, 1, 0) && fresh(sequence) && fresh(storage)
    {
      this.n := n;
      sequence := new nat[n](k => k);
      storage := new Option<Item>[n](_ => None);
      head, tail := 0, 0;
      claimed, popped := [], [];
      new;
      if n >= 2 { InitInv(n, 1, 0); }
      assert View() == Init(n, 1, 0);
    }

    /** `failures` is how often the weak compare-exchange fails spuriously. */
    method Push(v: Item, failures: nat) returns (ok: bool)
      requires Valid()
      modifies this`head, this`claimed, sequence, storage
      ensures Valid()
      ensures ok <==> |old(Contents())| < n
      ensures ok ==> Contents() == old(Contents()) + [v]
      ensures ok ==> Exec(old(View()), PUSH(v)) == Some(View())
      ensures !ok ==> View() == old(View())
    {
      var position := head;
      var left := failures;
      SequenceSeen(View(), head);
      while true
        invariant position == head && View() == old(View())
        decreases left
      {
        var c := position % n;
        var diff := sequence[c] - position;
        if diff == 0 {
          if left == 0 {
            SoloPush(View(), v);
            head := position + 1;
            claimed := claimed + [v];
            storage[c] := Some(v);
            sequence[c] := position + 1;
            return true;
          }
          left := left - 1;
        } else if diff < 0 {
          return false;
        }
        position := head;
      }
    }

    method Pop() returns (out: Option<Item>)
      requires Valid()
      modifies this`tail, this`popped, sequence, storage
      ensures Valid()
      ensures out.None? <==> old(Contents()) == []
      ensures out.None? ==> View() == old(View())
      ensures out.Some? ==> out.value == old(Contents())[0] && Contents() == old(Contents())[1..]
      ensures out.Some? ==> Exec(old(View()), POP) == Some(View())
    {
      var position := tail;
      var c := position % n;
      assert CellInv(View(), tail);
      if sequence[c] == position + 1 {
        SoloPop(View());
        tail := position + 1;
        out := storage[c];
        popped := popped + [out];
        storage[c] := None;
        sequence[c] := position + n;
      } else {
        out := None;
      }
    }

    method ApproxSize() returns (size: nat)
      requires Valid()
      ensures size == |Contents()|
    {
      var h := head;
      var t := tail;
      size := if h >= t then h - t else 0;
    }
  }
}
