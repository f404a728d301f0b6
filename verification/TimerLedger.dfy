/** What the timer contract promises of a handle's life, as a ledger every driver is
    shown to keep: timers are added under fresh ids, and each leaves at most once, by
    firing when due or by a cancel that reports success. */
module TimerLedger {

  datatype Event = Scheduled(id: nat, when: nat) | Cancelled(id: nat) | Fired(id: nat, now: nat)

  datatype Ledger = Ledger(pending: map<nat, nat>, log: seq<Event>)

  ghost function Add(l: Ledger, id: nat, when: nat): Ledger
  {
    Ledger(l.pending[id := when], l.log + [Scheduled(id, when)])
  }

  ghost function End(l: Ledger, e: Event): Ledger
  {
    Ledger(l.pending - {e.id}, l.log + [e])
  }

  /** Position k ends the life of id. */
  ghost predicate Ends(log: seq<Event>, k: nat, id: nat)
  {
    k < |log| && !log[k].Scheduled? && log[k].id == id
  }

  ghost predicate Begins(log: seq<Event>, k: nat, id: nat)
  {
    k < |log| && log[k].Scheduled? && log[k].id == id
  }

  /** Every handle fires at most once, only after it was scheduled, never before its deadline,
      and never once a cancel of it has succeeded; nor does a cancel succeed twice. */
  ghost predicate Faithful(log: seq<Event>)
  {
    && (forall j: nat, k: nat, id :: Begins(log, j, id) && Begins(log, k, id) ==> j == k)
    && (forall j: nat, k: nat, id :: Ends(log, j, id) && Ends(log, k, id) ==> j == k)
    && (forall k: nat, id :: Ends(log, k, id) ==> exists j: nat :: Opens(log, j, k, id))
  }

  /** Position j schedules what position k ends, in time. */
  ghost predicate Opens(log: seq<Event>, j: nat, k: nat, id: nat)
  {
    j < k < |log| && Begins(log, j, id) && (log[k].Fired? ==> log[j].when <= log[k].now)
  }

  ghost predicate Waits(log: seq<Event>, id: nat, when: nat)
  {
    && (exists j: nat :: Begins(log, j, id) && log[j].when == when)
    && (forall k: nat :: !Ends(log, k, id))
  }

  /** A timer is pending exactly from its scheduling until its life ends. */
  ghost predicate Inv(l: Ledger)
  {
    && Faithful(l.log)
    && (forall id, when :: (id in l.pending && l.pending[id] == when) <==> Waits(l.log, id, when))
  }

  ghost predicate Unused(l: Ledger, id: nat)
  {
    forall k: nat :: !Begins(l.log, k, id)
  }

  lemma Appended(log: seq<Event>, e: Event)
    ensures var r := log + [e];
      && (forall k: nat, id :: Begins(r, k, id) <==> Begins(log, k, id) || (k == |log| && e.Scheduled? && e.id == id))
      && (forall k: nat, id :: Ends(r, k, id) <==> Ends(log, k, id) || (k == |log| && !e.Scheduled? && e.id == id))
      && (forall j: nat, k: nat, id :: k < |log| ==> Opens(r, j, k, id) == Opens(log, j, k, id))
      && (forall id, when :: id != e.id ==> Waits(r, id, when) == Waits(log, id, when))
  {
    var r := log + [e];
    forall id, when | id != e.id ensures Waits(r, id, when) == Waits(log, id, when) {
      assert forall k: nat :: Begins(r, k, id) == Begins(log, k, id) && Ends(r, k, id) == Ends(log, k, id);
    }
  }

  lemma AddKeeps(l: Ledger, id: nat, when: nat)
    requires Inv(l) && Unused(l, id)
    ensures Inv(Add(l, id, when))
  {
    var r, n := Add(l, id, when), |l.log|;
    Appended(l.log, Scheduled(id, when));
    assert Begins(r.log, n, id) && r.log[n].when == when;
    forall k: nat ensures !Ends(l.log, k, id) {
      assert forall j: nat :: !Opens(l.log, j, k, id);
    }
    forall k: nat, i | Ends(r.log, k, i) ensures exists j: nat :: Opens(r.log, j, k, i) {
      var j: nat :| Opens(l.log, j, k, i);
      assert Opens(r.log, j, k, i);
    }
  }

  lemma EndKeeps(l: Ledger, e: Event)
    requires Inv(l) && !e.Scheduled? && e.id in l.pending && (e.Fired? ==> l.pending[e.id] <= e.now)
    ensures Inv(End(l, e))
  {
    var r, n, id := End(l, e), |l.log|, e.id;
    Appended(l.log, e);
    assert Waits(l.log, id, l.pending[id]);
    var j: nat :| Begins(l.log, j, id) && l.log[j].when == l.pending[id];
    assert Ends(r.log, n, id) && Opens(r.log, j, n, id);
    forall k: nat, i | Ends(r.log, k, i) ensures exists m: nat :: Opens(r.log, m, k, i) {
      if k < n {
        var m: nat :| Opens(l.log, m, k, i);
        assert Opens(r.log, m, k, i);
      }
    }
  }
}
