/** Alerts of open occurrences under ended obligations: exactly when a cycle creates or delivers one. */
module Orphans {
  import opened Common
  import opened EscalationPolicy
  import opened Tables
  import opened Alerts
  import opened Invariants
  import opened CyclePhases
  import opened Evolution
  import opened Convergence
  import opened WantedSpecs

  /** An alert a cycle would have to create for an occurrence whose obligation has ended: the
      occurrence is open and within the horizon, and the alert's key is not stored yet. */
  predicate IsOrphanSpec(db: Database, call: CycleCall, i: Id, s: AlertSpec) {
    && i in db.instances
    && IsDueByInstance(db.instances[i], call.HorizonEnd())
    && db.instances[i].obligation in db.obligations
    && IsTerminal(db.obligations[db.instances[i].obligation].status)
    && s in SpecsFor(InstanceTarget(i, db.instances[i]))
    && s.key !in KeysOf(db.alerts)
  }

  /** A cycle adds occurrences only to open obligations, and changes none. */
  lemma NewOccurrencesOpen(db: Database, call: CycleCall, rows: CycleRows, trace: CycleTrace)
    requires FullCycle(db, call, rows, trace)
    ensures trace.activated.obligations == db.obligations && trace.activated.instances == trace.materialized.instances
    ensures forall i :: i in db.instances ==>
              i in trace.activated.instances && trace.activated.instances[i] == db.instances[i]
    ensures forall i :: i in trace.activated.instances && i !in db.instances ==>
              && trace.activated.instances[i].obligation in db.obligations
              && !IsTerminal(db.obligations[trace.activated.instances[i].obligation].status)
  {
    hide Inv, MaterializeAll, CancelAll, AddAlerts, ReadyAll, ScheduleQuery, CancelQuery, DueQuery;
    hide ObligationSpecs, InstanceSpecs;
    CycleObligations(db, call, rows, trace);
    CancelPhaseFacts(db, call, UNLOCKED, rows, trace);
    SchedulePhaseFacts(db, call, UNLOCKED, rows, trace);
    ReadyPhaseFacts(db, call, UNLOCKED, rows, trace);
    Counters(db);
    MaterializeAllRows(db, rows.recurring, call.WindowStart(), call.HorizonEnd(), call.actor);
  }

  /** Such an alert is created, and left for the next cycle to cancel; it is delivered first if due. */
  lemma OrphanArises(db: Database, call: CycleCall, rows: CycleRows, trace: CycleTrace, i: Id, s: AlertSpec)
    returns (a: Id)
    requires FullCycle(db, call, rows, trace) && IsOrphanSpec(db, call, i, s)
    ensures a in CancellableAlerts(trace.activated) && trace.activated.alerts[a].spec == s
    ensures trace.activated.alerts[a].status.AlertReady? <==> s.scheduledFor <= call.now
  {
    hide Inv, CycleRuns, Wanted, SpecsFor, KeysOf;
    NewOccurrencesOpen(db, call, rows, trace);
    InstanceWanted(trace.activated, call.HorizonEnd(), i, s);
    WantedAlertsExist(db, call, rows, trace, s);
    a :| a in trace.activated.alerts && trace.activated.alerts[a].spec.key == s.key;
    NotStoredBefore(db, call, rows, trace, s, a);
    NewAlertFate(db, call, rows, trace, a);
    CycleKeeps(db, call, UNLOCKED, rows, trace);
    SameTarget(trace.activated, call.HorizonEnd(), s, a);
    OneSpecPerKey(trace.activated, call.HorizonEnd(), s, trace.activated.alerts[a].spec);
  }

  lemma InstanceWanted(db: Database, horizonEnd: Time, i: Id, s: AlertSpec)
    requires i in db.instances && IsDueByInstance(db.instances[i], horizonEnd)
    requires s in SpecsFor(InstanceTarget(i, db.instances[i]))
    ensures Wanted(db, horizonEnd, s)
    ensures s.instance == Some(i) && s.obligation == db.instances[i].obligation
  {
    hide SpecsFor;
    SpecNamesTarget(InstanceTarget(i, db.instances[i]), s);
    assert i in ScheduledInstances(db, horizonEnd);
  }

  lemma NotStoredBefore(db: Database, call: CycleCall, rows: CycleRows, trace: CycleTrace, s: AlertSpec, a: Id)
    requires FullCycle(db, call, rows, trace) && a in trace.activated.alerts
    requires trace.activated.alerts[a].spec.key == s.key && s.key !in KeysOf(db.alerts)
    ensures a !in db.alerts
  {
    hide Inv, CycleRuns;
    if a in db.alerts {
      AlertFate(db, call, rows, trace, a);
    }
  }

  /** Nothing else is left for the next cycle. */
  lemma OrphanExplained(db: Database, call: CycleCall, rows: CycleRows, trace: CycleTrace, a: Id)
    requires FullCycle(db, call, rows, trace) && a in CancellableAlerts(trace.activated)
    ensures var s := trace.activated.alerts[a].spec;
            s.instance.Some? && IsOrphanSpec(db, call, s.instance.value, s)
    ensures trace.activated.alerts[a].status.AlertReady? <==> trace.activated.alerts[a].spec.scheduledFor <= call.now
  {
    hide Inv, CycleRuns, Wanted, SpecsFor, KeysOf;
    var s := trace.activated.alerts[a].spec;
    OnlyOrphansLeft(db, call, rows, trace);
    NewOccurrencesOpen(db, call, rows, trace);
    OrphanIsNew(db, call, rows, trace, a);
    NewAlertFate(db, call, rows, trace, a);
    WantedOfInstance(trace.activated, call.HorizonEnd(), s.instance.value, s);
    WantedKey(trace.activated, call.HorizonEnd(), s);
    KeyIsNew(db, call, rows, trace, a);
  }

  lemma OrphanIsNew(db: Database, call: CycleCall, rows: CycleRows, trace: CycleTrace, a: Id)
    requires FullCycle(db, call, rows, trace) && a in CancellableAlerts(trace.activated)
    ensures a !in db.alerts
  {
    hide Inv, CycleRuns, WorkEnded;
    if a in db.alerts {
      AlertFate(db, call, rows, trace, a);
    }
  }

  lemma KeyIsNew(db: Database, call: CycleCall, rows: CycleRows, trace: CycleTrace, a: Id)
    requires FullCycle(db, call, rows, trace) && a in trace.activated.alerts && a !in db.alerts
    ensures trace.activated.alerts[a].spec.key !in KeysOf(db.alerts)
  {
    hide Inv, CycleRuns;
    if b :| b in db.alerts && db.alerts[b].spec.key == trace.activated.alerts[a].spec.key {
      AlertFate(db, call, rows, trace, b);
      CycleKeeps(db, call, UNLOCKED, rows, trace);
      KeysUnique(trace.activated);
    }
  }

  /** Something is left to cancel after a cycle exactly when, before it, an open occurrence within the
      horizon has an ended obligation and an alert whose key is not stored. */
  lemma OrphansIff(db: Database, call: CycleCall, rows: CycleRows, trace: CycleTrace)
    requires FullCycle(db, call, rows, trace)
    ensures CancellableAlerts(trace.activated) != {} <==> exists i, s :: IsOrphanSpec(db, call, i, s)
  {
    hide FullCycle, IsCancellable, IsOrphanSpec;
    if CancellableAlerts(trace.activated) != {} {
      var a :| a in CancellableAlerts(trace.activated);
      OrphanExplained(db, call, rows, trace, a);
    }
    if exists i, s :: IsOrphanSpec(db, call, i, s) {
      var i, s :| IsOrphanSpec(db, call, i, s);
      var a := OrphanArises(db, call, rows, trace, i, s);
      assert CancellableAlerts(trace.activated) != {};
    }
  }

  /** An alert is even delivered for such work exactly when one of those is already due. */
  lemma DeliveredOrphansIff(db: Database, call: CycleCall, rows: CycleRows, trace: CycleTrace)
    requires FullCycle(db, call, rows, trace)
    ensures (exists a :: a in CancellableAlerts(trace.activated) && trace.activated.alerts[a].status.AlertReady?)
              <==> exists i, s :: IsOrphanSpec(db, call, i, s) && s.scheduledFor <= call.now
  {
    hide FullCycle, IsOrphanSpec;
    if a :| a in CancellableAlerts(trace.activated) && trace.activated.alerts[a].status.AlertReady? {
      OrphanExplained(db, call, rows, trace, a);
    }
    if i, s :| IsOrphanSpec(db, call, i, s) && s.scheduledFor <= call.now {
      var a := OrphanArises(db, call, rows, trace, i, s);
    }
  }

  /** A second cycle at the same instant changes nothing exactly when there is no such occurrence. */
  lemma SecondCycleIdleIff(db: Database, call: CycleCall, rows: CycleRows, trace: CycleTrace,
                           rows': CycleRows, trace': CycleTrace)
    requires FullCycle(db, call, rows, trace)
    requires CycleRuns(trace.activated, call, UNLOCKED, rows', trace')
    ensures trace'.activated == trace.activated <==> !exists i, s :: IsOrphanSpec(db, call, i, s)
  {
    hide Inv, MaterializeAll, CancelAll, AddAlerts, ReadyAll, ObligationSpecs, InstanceSpecs, IsOrphanSpec;
    hide ScheduleQuery, DueQuery;
    OrphansIff(db, call, rows, trace);
    SecondCycle(db, call, rows, trace, rows', trace');
    CancelPhaseFacts(trace.activated, call, UNLOCKED, rows', trace');
    if CancellableAlerts(trace.activated) == {} {
      ListsEmpty(rows'.cancellable, CancellableAlerts(trace'.materialized) - {});
      NothingCancelled(trace'.materialized, call.actor);
    } else {
      var a :| a in CancellableAlerts(trace.activated);
      assert trace'.activated.alerts[a] == Cancelled(trace.activated.alerts[a]);
    }
  }

  lemma NothingCancelled(db: Database, actor: string)
    ensures CancelAll(db, [], actor) == db
  {
  }
}
