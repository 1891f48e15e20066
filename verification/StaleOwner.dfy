/** When an alert names an owner its work no longer has. */
module StaleOwner {
  import opened Common
  import opened EscalationPolicy
  import opened Tables
  import opened Alerts
  import opened Invariants
  import opened CyclePhases
  import opened Evolution
  import opened Convergence
  import opened WantedSpecs

  /** The owner of the work an alert is about. */
  function CurrentOwner(db: Database, s: AlertSpec): Option<Id>
    requires s.instance.None? ==> s.obligation in db.obligations
    requires s.instance.Some? ==> s.instance.value in db.instances
  {
    if s.instance.Some? then db.instances[s.instance.value].owner else db.obligations[s.obligation].owner
  }

  lemma SpecsNameOwner(t: Target, s: AlertSpec)
    requires s in SpecsFor(t)
    ensures s.owner == t.owner
  {
  }

  /** A wanted alert names the owner of its work. */
  lemma WantedNamesOwner(db: Database, horizonEnd: Time, s: AlertSpec)
    requires Wanted(db, horizonEnd, s)
    ensures s.instance.None? ==> s.obligation in db.obligations
    ensures s.instance.Some? ==> s.instance.value in db.instances
    ensures s.owner == CurrentOwner(db, s)
  {
    hide Wanted, SpecsFor;
    if s.instance.Some? {
      WantedOfInstance(db, horizonEnd, s.instance.value, s);
      SpecsNameOwner(InstanceTarget(s.instance.value, db.instances[s.instance.value]), s);
    } else {
      WantedOfObligation(db, horizonEnd, s);
      SpecsNameOwner(ObligationTarget(s.obligation, db.obligations[s.obligation]), s);
    }
  }

  /** A cycle keeps what a stored alert was created with. */
  lemma SpecKept(db: Database, call: CycleCall, rows: CycleRows, trace: CycleTrace, a: Id)
    requires FullCycle(db, call, rows, trace) && a in db.alerts
    ensures a in trace.activated.alerts && trace.activated.alerts[a].spec == db.alerts[a].spec
  {
    hide FullCycle;
    AlertFate(db, call, rows, trace, a);
  }

  /** The alert stored under a wanted alert's key after a cycle: the one stored before, or the wanted
      one itself. */
  lemma StoredOrWanted(db: Database, call: CycleCall, rows: CycleRows, trace: CycleTrace, s: AlertSpec, a: Id)
    requires FullCycle(db, call, rows, trace)
    requires Wanted(trace.activated, call.HorizonEnd(), s)
    requires a in trace.activated.alerts && trace.activated.alerts[a].spec.key == s.key
    ensures a in db.alerts ==> db.alerts[a].spec == trace.activated.alerts[a].spec
    ensures a !in db.alerts ==> trace.activated.alerts[a].spec == s
    ensures forall b :: b in db.alerts && db.alerts[b].spec.key == s.key ==> b == a
  {
    hide Inv, CycleRuns, Wanted;
    CycleKeeps(db, call, UNLOCKED, rows, trace);
    KeysUnique(trace.activated);
    forall b | b in db.alerts && db.alerts[b].spec.key == s.key
      ensures b == a
    {
      SpecKept(db, call, rows, trace, b);
    }
    if a in db.alerts {
      SpecKept(db, call, rows, trace, a);
    } else {
      NewAlertFate(db, call, rows, trace, a);
      SameTarget(trace.activated, call.HorizonEnd(), s, a);
      OneSpecPerKey(trace.activated, call.HorizonEnd(), s, trace.activated.alerts[a].spec);
    }
  }

  /** After a cycle the alert stored under a wanted alert's key is the wanted one, content and all,
      exactly when no other was stored under that key before. */
  lemma AsWantedIff(db: Database, call: CycleCall, rows: CycleRows, trace: CycleTrace, s: AlertSpec, a: Id)
    requires FullCycle(db, call, rows, trace)
    requires Wanted(trace.activated, call.HorizonEnd(), s)
    requires a in trace.activated.alerts && trace.activated.alerts[a].spec.key == s.key
    ensures trace.activated.alerts[a].spec == s <==>
              !exists b :: b in db.alerts && db.alerts[b].spec.key == s.key && db.alerts[b].spec != s
  {
    hide FullCycle, Wanted;
    StoredOrWanted(db, call, rows, trace, s, a);
  }

  /** It names the current owner of its work exactly when no alert with its key and another owner was
      stored before: the key does not hold the owner, and blocks a replacement. */
  lemma NamesOwnerIff(db: Database, call: CycleCall, rows: CycleRows, trace: CycleTrace, s: AlertSpec, a: Id)
    requires FullCycle(db, call, rows, trace)
    requires Wanted(trace.activated, call.HorizonEnd(), s)
    requires a in trace.activated.alerts && trace.activated.alerts[a].spec.key == s.key
    ensures s.instance.None? ==> s.obligation in trace.activated.obligations
    ensures s.instance.Some? ==> s.instance.value in trace.activated.instances
    ensures var owner := CurrentOwner(trace.activated, s);
            trace.activated.alerts[a].spec.owner == owner <==>
              !exists b :: b in db.alerts && db.alerts[b].spec.key == s.key && db.alerts[b].spec.owner != owner
  {
    hide FullCycle, Wanted;
    WantedNamesOwner(trace.activated, call.HorizonEnd(), s);
    StoredOrWanted(db, call, rows, trace, s, a);
  }
}
