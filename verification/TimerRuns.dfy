/** Whole runs of the time drivers with callbacks that may schedule and cancel: a pass
    over the table is many steps, and schedules and cancels may come between any two. */
module TimerRuns {
  import opened TimerTables
  import L = TimerLedger

  /** The ledger holds exactly the live timers; their handles were issued and never reused. */
  ghost predicate Booked(live: set<Timer>, ledger: L.Ledger, issued: nat)
  {
    && L.Inv(ledger) && issued < ID_SPAN
    && (forall t :: t in live ==> t.id in ledger.pending && ledger.pending[t.id] == t.when)
    && (forall id :: id in ledger.pending ==> exists t :: t in live && t.id == id)
    && (forall t, u :: t in live && u in live && t.id == u.id ==> t == u)
    && (forall k: nat, id: nat :: L.Begins(ledger.log, k, id) ==> 1 <= id <= issued)
    && (forall t :: t in live ==> 1 <= t.id <= issued)
  }

  lemma BookAdd(live: set<Timer>, ledger: L.Ledger, issued: nat, t: Timer)
    requires Booked(live, ledger, issued) && t.id == issued + 1 < ID_SPAN
    ensures Booked(live + {t}, L.Add(ledger, t.id, t.when), issued + 1)
  {
    L.AddKeeps(ledger, t.id, t.when);
    L.Appended(ledger.log, L.Scheduled(t.id, t.when));
    hide L.Inv, L.Waits, L.Opens, L.Ends, L.Begins;
  }

  lemma BookEnd(live: set<Timer>, ledger: L.Ledger, issued: nat, t: Timer, e: L.Event)
    requires Booked(live, ledger, issued) && t in live && e.id == t.id && !e.Scheduled?
    requires e.Fired? ==> t.when <= e.now
    ensures Booked(live - {t}, L.End(ledger, e), issued)
  {
    L.EndKeeps(ledger, e);
    L.Appended(ledger.log, e);
    hide L.Inv, L.Waits, L.Opens, L.Ends, L.Begins;
  }
}
