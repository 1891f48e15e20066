/** Materialization and alert cycles repeated: idempotence, convergence and what a cycle achieves. */
module Convergence {
  import opened Common
  import opened EscalationPolicy
  import opened Tables
  import opened Workflow
  import opened Occurrences
  import opened Alerts
  import opened EventLog
  import opened Invariants
  import opened Preservation
  import opened CyclePhases
  import opened Runs
  import opened Evolution

  // Materialization

  /** Every occurrence of the window is already stored. */
  ghost predicate Covered(db: Database, id: Id, windowStart: Time, windowEnd: Time) {
    && id in db.obligations
    && db.obligations[id].recurrence.Some?
    && forall t :: t in Between(db.obligations[id].recurrence.value.occurs, windowStart, windowEnd) ==> IsScheduledAt(db, id, t)
  }

  lemma {:induction false} AddMissingNothing(db: Database, id: Id, times: seq<Time>, actor: string)
    requires id in db.obligations && db.obligations[id].recurrence.Some?
    requires forall t :: t in times ==> IsScheduledAt(db, id, t)
    ensures AddMissing(db, id, times, actor) == (db, [])
  {
    hide IsScheduledAt;
    if times != [] {
      AddMissingNothing(db, id, times[..|times| - 1], actor);
      assert times[|times| - 1] in times;
    }
  }

  /** Materialization is idempotent: repeated over the same window it stores and logs nothing. */
  lemma MaterializeIdempotent(db: Database, id: Id, windowStart: Time, windowEnd: Time, actor: string)
    requires Materialize(db, id, windowStart, windowEnd, actor).Success?
    requires forall i :: i in db.instances ==> i < db.nextId
    ensures var d := Materialize(db, id, windowStart, windowEnd, actor).value.0;
            Materialize(d, id, windowStart, windowEnd, actor) == Success((d, []))
  {
    hide Between, AddsInstances, NewSnapshots, Schedules, IsScheduledAt;
    var d := Materialize(db, id, windowStart, windowEnd, actor).value.0;
    var times := Between(db.obligations[id].recurrence.value.occurs, windowStart, windowEnd);
    MaterializeRows(db, id, windowStart, windowEnd, actor);
    forall t | t in times
      ensures IsScheduledAt(d, id, t)
    {
      ScheduledIff(d, id, t);
    }
    AddMissingNothing(d, id, times, actor);
  }

  /** The schedules stored after materializing a window are exactly the old ones and the window's
      occurrences. */
  lemma SchedulesAreUnion(db: Database, id: Id, windowStart: Time, windowEnd: Time, actor: string)
    requires Materialize(db, id, windowStart, windowEnd, actor).Success?
    requires forall i :: i in db.instances ==> i < db.nextId
    ensures var d := Materialize(db, id, windowStart, windowEnd, actor).value.0;
            var occurs := db.obligations[id].recurrence.value.occurs;
            forall t :: t in Schedules(d, id) <==> t in Schedules(db, id) || (windowStart <= t <= windowEnd && occurs(t))
  {
    hide AddsInstances, NewSnapshots, Schedules, Materialize;
    MaterializeRows(db, id, windowStart, windowEnd, actor);
  }

  /** Two windows that meet compose: materializing one and then the other stores the schedules
      that materializing their union would. */
  lemma WindowsCompose(db: Database, id: Id, lo: Time, mid: Time, mid': Time, hi: Time, actor: string,
                       d1: Database, d2: Database, whole: Database)
    requires lo <= mid' <= mid + 1 && mid <= hi
    requires forall i :: i in db.instances ==> i < db.nextId
    requires Materialize(db, id, lo, mid, actor).Success? && d1 == Materialize(db, id, lo, mid, actor).value.0
    requires Materialize(d1, id, mid', hi, actor).Success? && d2 == Materialize(d1, id, mid', hi, actor).value.0
    requires Materialize(db, id, lo, hi, actor).Success? && whole == Materialize(db, id, lo, hi, actor).value.0
    ensures Schedules(d2, id) == Schedules(whole, id)
  {
    hide NewSnapshots, Schedules, Materialize;
    MaterializeRows(db, id, lo, mid, actor);
    MaterializeRows(d1, id, mid', hi, actor);
    MaterializeRows(db, id, lo, hi, actor);
    SchedulesAreUnion(db, id, lo, mid, actor);
    SchedulesAreUnion(d1, id, mid', hi, actor);
    SchedulesAreUnion(db, id, lo, hi, actor);
    assert d1.obligations == db.obligations;
  }

  lemma CoveredStays(a: Database, b: Database, id: Id, windowStart: Time, windowEnd: Time)
    requires AddsInstances(a, b) && Covered(a, id, windowStart, windowEnd)
    ensures Covered(b, id, windowStart, windowEnd)
  {
  }

  lemma MaterializeCovers(db: Database, id: Id, windowStart: Time, windowEnd: Time, actor: string)
    requires Materialize(db, id, windowStart, windowEnd, actor).Success?
    requires forall i :: i in db.instances ==> i < db.nextId
    ensures AddsInstances(db, Materialize(db, id, windowStart, windowEnd, actor).value.0)
    ensures Covered(Materialize(db, id, windowStart, windowEnd, actor).value.0, id, windowStart, windowEnd)
  {
    hide Between, Schedules, NewSnapshots, IsScheduledAt;
    var d := Materialize(db, id, windowStart, windowEnd, actor).value.0;
    MaterializeRows(db, id, windowStart, windowEnd, actor);
    forall t | t in Between(d.obligations[id].recurrence.value.occurs, windowStart, windowEnd)
      ensures IsScheduledAt(d, id, t)
    {
      ScheduledIff(d, id, t);
    }
  }

  /** An obligation whose window could be materialized: the checks do not depend on occurrences. */
  ghost predicate Materializable(db: Database, id: Id, windowStart: Time, windowEnd: Time) {
    && id in db.obligations
    && !db.obligations[id].status.Waived? && !db.obligations[id].status.Superseded?
    && db.obligations[id].recurrence.Some? && db.obligations[id].dueAt.Some?
    && Expand(db.obligations[id].recurrence.value, windowStart, windowEnd).Success?
  }

  lemma {:induction false} MaterializeAllCovers(db: Database, rows: seq<Id>, windowStart: Time, windowEnd: Time,
                                                actor: string)
    requires MaterializeAll(db, rows, windowStart, windowEnd, actor).Success?
    requires forall i :: i in db.instances ==> i < db.nextId
    ensures AddsInstances(db, MaterializeAll(db, rows, windowStart, windowEnd, actor).value.0)
    ensures forall k :: 0 <= k < |rows| ==>
              && Materializable(db, rows[k], windowStart, windowEnd)
              && Covered(MaterializeAll(db, rows, windowStart, windowEnd, actor).value.0, rows[k], windowStart, windowEnd)
  {
    hide Covered, Expand;
    if rows != [] {
      var init, last := rows[..|rows| - 1], rows[|rows| - 1];
      MaterializeAllCovers(db, init, windowStart, windowEnd, actor);
      var before := MaterializeAll(db, init, windowStart, windowEnd, actor).value.0;
      var d := MaterializeAll(db, rows, windowStart, windowEnd, actor).value.0;
      MaterializeCovers(before, last, windowStart, windowEnd, actor);
      forall k | 0 <= k < |rows|
        ensures Materializable(db, rows[k], windowStart, windowEnd)
        ensures Covered(d, rows[k], windowStart, windowEnd)
      {
        if k < |init| {
          assert rows[k] == init[k];
          CoveredStays(before, d, rows[k], windowStart, windowEnd);
        }
      }
    }
  }

  lemma {:induction false} MaterializeAllNothing(db: Database, rows: seq<Id>, windowStart: Time, windowEnd: Time,
                                                 actor: string)
    requires forall k :: 0 <= k < |rows| ==>
               Materializable(db, rows[k], windowStart, windowEnd) && Covered(db, rows[k], windowStart, windowEnd)
    ensures MaterializeAll(db, rows, windowStart, windowEnd, actor) == Success((db, 0))
  {
    hide IsScheduledAt, Between;
    if rows != [] {
      var init, last := rows[..|rows| - 1], rows[|rows| - 1];
      MaterializeAllNothing(db, init, windowStart, windowEnd, actor);
      assert Materializable(db, last, windowStart, windowEnd) && Covered(db, last, windowStart, windowEnd);
      AddMissingNothing(db, last, Between(db.obligations[last].recurrence.value.occurs, windowStart, windowEnd), actor);
    }
  }

  // Scheduling

  lemma {:induction false} AddAlertsNothing(db: Database, specs: seq<AlertSpec>)
    requires forall s :: s in specs ==> s.key in KeysOf(db.alerts)
    ensures AddAlerts(db, specs) == db
  {
    if specs != [] {
      AddAlertsNothing(db, specs[..|specs| - 1]);
      assert specs[|specs| - 1] in specs;
    }
  }

  lemma {:induction false} ObligationSpecsMembers(db: Database, rows: seq<Id>, s: AlertSpec)
    requires forall i :: 0 <= i < |rows| ==> rows[i] in db.obligations && db.obligations[rows[i]].dueAt.Some?
    ensures s in ObligationSpecs(db, rows) <==>
              exists i :: 0 <= i < |rows| && s in SpecsFor(ObligationTarget(rows[i], db.obligations[rows[i]]))
  {
    hide SpecsFor;
    if rows != [] {
      var init, last := rows[..|rows| - 1], rows[|rows| - 1];
      ObligationSpecsMembers(db, init, s);
      if s in ObligationSpecs(db, init) {
        var i :| 0 <= i < |init| && s in SpecsFor(ObligationTarget(init[i], db.obligations[init[i]]));
        assert rows[i] == init[i];
      }
      if i :| 0 <= i < |rows| && s in SpecsFor(ObligationTarget(rows[i], db.obligations[rows[i]])) {
        if i < |init| { assert init[i] == rows[i]; }
      }
    }
  }

  lemma {:induction false} InstanceSpecsMembers(db: Database, rows: seq<Id>, s: AlertSpec)
    requires forall i :: 0 <= i < |rows| ==> rows[i] in db.instances
    ensures s in InstanceSpecs(db, rows) <==>
              exists i :: 0 <= i < |rows| && s in SpecsFor(InstanceTarget(rows[i], db.instances[rows[i]]))
  {
    hide SpecsFor;
    if rows != [] {
      var init, last := rows[..|rows| - 1], rows[|rows| - 1];
      InstanceSpecsMembers(db, init, s);
      if s in InstanceSpecs(db, init) {
        var i :| 0 <= i < |init| && s in SpecsFor(InstanceTarget(init[i], db.instances[init[i]]));
        assert rows[i] == init[i];
      }
      if i :| 0 <= i < |rows| && s in SpecsFor(InstanceTarget(rows[i], db.instances[rows[i]])) {
        if i < |init| { assert init[i] == rows[i]; }
      }
    }
  }

  /** The alerts the open, in-horizon work of the tables asks for. */
  ghost predicate Wanted(db: Database, horizonEnd: Time, s: AlertSpec) {
    || (exists o :: o in ScheduledObligations(db, horizonEnd) && s in SpecsFor(ObligationTarget(o, db.obligations[o])))
    || (exists i :: i in ScheduledInstances(db, horizonEnd) && s in SpecsFor(InstanceTarget(i, db.instances[i])))
  }

  /** Whatever the order of the two queries, the specs considered are exactly the wanted ones. */
  lemma SpecsAreWanted(db: Database, horizonEnd: Time, obligations: seq<Id>, instances: seq<Id>, s: AlertSpec)
    requires ScheduleQuery(db, horizonEnd, obligations, instances)
    requires forall i :: 0 <= i < |obligations| ==> obligations[i] in db.obligations && db.obligations[obligations[i]].dueAt.Some?
    requires forall i :: 0 <= i < |instances| ==> instances[i] in db.instances
    ensures s in ObligationSpecs(db, obligations) + InstanceSpecs(db, instances) <==> Wanted(db, horizonEnd, s)
  {
    hide SpecsFor;
    ObligationSpecsMembers(db, obligations, s);
    InstanceSpecsMembers(db, instances, s);
    if o :| o in ScheduledObligations(db, horizonEnd) && s in SpecsFor(ObligationTarget(o, db.obligations[o])) {
      var k :| 0 <= k < |obligations| && obligations[k] == o;
    }
    if i :| i in ScheduledInstances(db, horizonEnd) && s in SpecsFor(InstanceTarget(i, db.instances[i])) {
      var k :| 0 <= k < |instances| && instances[k] == i;
    }
    if k :| 0 <= k < |obligations| && s in SpecsFor(ObligationTarget(obligations[k], db.obligations[obligations[k]])) {
      assert obligations[k] in obligations;
    }
    if k :| 0 <= k < |instances| && s in SpecsFor(InstanceTarget(instances[k], db.instances[instances[k]])) {
      assert instances[k] in instances;
    }
  }

  /** A wanted alert names its target: open work, of which it is one of the specs. */
  lemma WantedTarget(db: Database, horizonEnd: Time, s: AlertSpec)
    requires Wanted(db, horizonEnd, s)
    ensures s.instance.None? ==> s.obligation in db.obligations && IsOpen(db.obligations[s.obligation].status)
    ensures s.instance.Some? ==> s.instance.value in db.instances && IsOpenInstance(db.instances[s.instance.value].status)
  {
    if o :| o in ScheduledObligations(db, horizonEnd) && s in SpecsFor(ObligationTarget(o, db.obligations[o])) {
      SpecNamesTarget(ObligationTarget(o, db.obligations[o]), s);
    }
    if i :| i in ScheduledInstances(db, horizonEnd) && s in SpecsFor(InstanceTarget(i, db.instances[i])) {
      SpecNamesTarget(InstanceTarget(i, db.instances[i]), s);
    }
  }

  lemma SpecNamesTarget(t: Target, s: AlertSpec)
    requires s in SpecsFor(t)
    ensures s.obligation == t.obligation && s.instance == t.instance && s.key.target == t.Subject()
  {
  }

  // What one cycle achieves

  /** A complete cycle seen from its phases, with nothing locked. */
  ghost predicate FullCycle(db: Database, call: CycleCall, rows: CycleRows, trace: CycleTrace) {
    Inv(db) && CycleRuns(db, call, UNLOCKED, rows, trace)
  }

  lemma CancelPhaseFacts(db: Database, call: CycleCall, locks: Locks, rows: CycleRows, trace: CycleTrace)
    requires CycleRuns(db, call, locks, rows, trace)
    ensures SameWork(trace.cancelled, trace.materialized)
    ensures forall a :: a in trace.materialized.alerts ==>
              && a in trace.cancelled.alerts
              && trace.cancelled.alerts[a] ==
                   if a in CancellableAlerts(trace.materialized) - locks.cancelling then Cancelled(trace.materialized.alerts[a])
                   else trace.materialized.alerts[a]
    ensures forall a :: a in trace.cancelled.alerts ==> a in trace.materialized.alerts
  {
    hide MaterializeAll, CancelAll, AddAlerts, ReadyAll, ScheduleQuery, DueQuery, ObligationSpecs, InstanceSpecs;
    CancelAllRows(trace.materialized, rows.cancellable, call.actor);
    assert trace.cancelled.alerts.Keys == trace.materialized.alerts.Keys;
  }

  lemma SchedulePhaseFacts(db: Database, call: CycleCall, locks: Locks, rows: CycleRows, trace: CycleTrace)
    requires Inv(db)
    requires CycleRuns(db, call, locks, rows, trace)
    ensures SameWork(trace.scheduled, trace.cancelled)
    ensures forall a :: a in trace.cancelled.alerts ==>
              a in trace.scheduled.alerts && trace.scheduled.alerts[a] == trace.cancelled.alerts[a]
    ensures forall a :: a in trace.scheduled.alerts && a !in trace.cancelled.alerts ==>
              && trace.scheduled.alerts[a].status.AlertScheduled?
              && Wanted(trace.cancelled, call.HorizonEnd(), trace.scheduled.alerts[a].spec)
    ensures forall s :: Wanted(trace.cancelled, call.HorizonEnd(), s) ==> s.key in KeysOf(trace.scheduled.alerts)
  {
    hide Inv, MaterializeAll, CancelAll, AddAlerts, ReadyAll, CancelQuery, DueQuery, ObligationSpecs, InstanceSpecs, Wanted, KeysOf;
    CycleKeeps(db, call, locks, rows, trace);
    Counters(trace.cancelled);
    var specs := ObligationSpecs(trace.cancelled, rows.obligations) + InstanceSpecs(trace.cancelled, rows.instances);
    AddAlertsRows(trace.cancelled, specs);
    forall s
      ensures s in specs <==> Wanted(trace.cancelled, call.HorizonEnd(), s)
    {
      SpecsAreWanted(trace.cancelled, call.HorizonEnd(), rows.obligations, rows.instances, s);
    }
  }

  lemma ReadyPhaseFacts(db: Database, call: CycleCall, locks: Locks, rows: CycleRows, trace: CycleTrace)
    requires CycleRuns(db, call, locks, rows, trace)
    ensures SameWork(trace.activated, trace.scheduled)
    ensures forall a :: a in trace.scheduled.alerts ==>
              && a in trace.activated.alerts
              && trace.activated.alerts[a] ==
                   if a in DueAlerts(trace.scheduled, call.now) - locks.activating then Readied(trace.scheduled.alerts[a], call.now)
                   else trace.scheduled.alerts[a]
    ensures forall a :: a in trace.activated.alerts ==> a in trace.scheduled.alerts
  {
    hide MaterializeAll, CancelAll, AddAlerts, ReadyAll, ScheduleQuery, CancelQuery, ObligationSpecs, InstanceSpecs;
    ReadyAllRows(trace.scheduled, rows.due, call.now, call.actor);
    assert trace.activated.alerts.Keys == trace.scheduled.alerts.Keys;
  }

  lemma MaterializePhaseFacts(db: Database, call: CycleCall, locks: Locks, rows: CycleRows, trace: CycleTrace)
    requires Inv(db)
    requires CycleRuns(db, call, locks, rows, trace)
    ensures AddsInstances(db, trace.materialized)
    ensures forall o :: o in RecurringObligations(db) ==>
              && Materializable(db, o, call.WindowStart(), call.HorizonEnd())
              && Covered(trace.materialized, o, call.WindowStart(), call.HorizonEnd())
  {
    hide Inv, AddsInstances, Materializable, Covered, MaterializeAll, CancelAll, AddAlerts, ReadyAll;
    hide ScheduleQuery, CancelQuery, DueQuery, ObligationSpecs, InstanceSpecs;
    Counters(db);
    MaterializeAllCovers(db, rows.recurring, call.WindowStart(), call.HorizonEnd(), call.actor);
    forall o | o in RecurringObligations(db)
      ensures Materializable(db, o, call.WindowStart(), call.HorizonEnd())
      ensures Covered(trace.materialized, o, call.WindowStart(), call.HorizonEnd())
    {
      var k :| 0 <= k < |rows.recurring| && rows.recurring[k] == o;
    }
  }

  /** After a cycle no scheduled alert is due any more. */
  lemma NothingDueAfterCycle(db: Database, call: CycleCall, rows: CycleRows, trace: CycleTrace)
    requires FullCycle(db, call, rows, trace)
    ensures DueAlerts(trace.activated, call.now) == {}
  {
    hide Inv, CycleRuns;
    ReadyPhaseFacts(db, call, UNLOCKED, rows, trace);
  }

  /** After a cycle every wanted alert exists, once. */
  lemma WantedAlertsExist(db: Database, call: CycleCall, rows: CycleRows, trace: CycleTrace, s: AlertSpec)
    requires FullCycle(db, call, rows, trace)
    requires Wanted(trace.activated, call.HorizonEnd(), s)
    ensures exists a :: a in trace.activated.alerts && trace.activated.alerts[a].spec.key == s.key
    ensures forall a, b | a in trace.activated.alerts && b in trace.activated.alerts ::
              trace.activated.alerts[a].spec.key == s.key && trace.activated.alerts[b].spec.key == s.key ==> a == b
  {
    hide Inv, CycleRuns, Wanted;
    SchedulePhaseFacts(db, call, UNLOCKED, rows, trace);
    ReadyPhaseFacts(db, call, UNLOCKED, rows, trace);
    WantedSame(trace.activated, trace.cancelled, call.HorizonEnd(), s);
    var a :| a in trace.scheduled.alerts && trace.scheduled.alerts[a].spec.key == s.key;
    assert trace.activated.alerts[a].spec.key == s.key;
    CycleKeeps(db, call, UNLOCKED, rows, trace);
    KeysUnique(trace.activated);
  }

  lemma KeysUnique(db: Database)
    requires Inv(db)
    ensures OnePerKey(db.alerts)
  {
  }

  lemma WantedSame(a: Database, b: Database, horizonEnd: Time, s: AlertSpec)
    requires a.obligations == b.obligations && a.instances == b.instances
    ensures Wanted(a, horizonEnd, s) <==> Wanted(b, horizonEnd, s)
  {
  }

  // Repeating the cycle

  /** Alerts a cycle leaves cancellable: their occurrence is open but its obligation has ended. */
  ghost predicate IsOrphan(db: Database, a: Alert) {
    && a.spec.instance.Some?
    && a.spec.instance.value in db.instances
    && IsOpenInstance(db.instances[a.spec.instance.value].status)
    && a.spec.obligation in db.obligations
    && IsTerminal(db.obligations[a.spec.obligation].status)
  }

  /** After a cycle the only alerts still to cancel are those it gave to open occurrences of ended
      obligations, which scheduling does not check. */
  lemma OnlyOrphansLeft(db: Database, call: CycleCall, rows: CycleRows, trace: CycleTrace)
    requires FullCycle(db, call, rows, trace)
    ensures forall a :: a in CancellableAlerts(trace.activated) ==> IsOrphan(trace.activated, trace.activated.alerts[a])
    ensures forall a :: a in CancellableAlerts(trace.activated) ==> a !in trace.cancelled.alerts
  {
    hide Inv, CycleRuns, Wanted;
    CancelPhaseFacts(db, call, UNLOCKED, rows, trace);
    SchedulePhaseFacts(db, call, UNLOCKED, rows, trace);
    ReadyPhaseFacts(db, call, UNLOCKED, rows, trace);
    forall a | a in CancellableAlerts(trace.activated)
      ensures IsOrphan(trace.activated, trace.activated.alerts[a])
      ensures a !in trace.cancelled.alerts
    {
      if a !in trace.cancelled.alerts {
        WantedTarget(trace.cancelled, call.HorizonEnd(), trace.scheduled.alerts[a].spec);
      }
    }
  }

  /** Materialization of a repeated cycle: it succeeds and does nothing. */
  lemma RepeatMaterializesNothing(db: Database, call: CycleCall, rows: CycleRows, trace: CycleTrace, recurring: seq<Id>)
    requires FullCycle(db, call, rows, trace)
    requires Lists(recurring, RecurringObligations(trace.activated))
    ensures MaterializeAll(trace.activated, recurring, call.WindowStart(), call.HorizonEnd(), call.actor)
              == Success((trace.activated, 0))
  {
    hide Inv, CycleRuns, Expand, Between, MaterializeAll;
    MaterializePhaseFacts(db, call, UNLOCKED, rows, trace);
    CancelPhaseFacts(db, call, UNLOCKED, rows, trace);
    SchedulePhaseFacts(db, call, UNLOCKED, rows, trace);
    ReadyPhaseFacts(db, call, UNLOCKED, rows, trace);
    assert trace.activated.obligations == db.obligations;
    assert trace.activated.instances == trace.materialized.instances;
    forall k | 0 <= k < |recurring|
      ensures Materializable(trace.activated, recurring[k], call.WindowStart(), call.HorizonEnd())
      ensures Covered(trace.activated, recurring[k], call.WindowStart(), call.HorizonEnd())
    {
      assert recurring[k] in recurring;
      assert recurring[k] in RecurringObligations(db);
      CoveredSame(trace.materialized, trace.activated, recurring[k], call.WindowStart(), call.HorizonEnd());
    }
    MaterializeAllNothing(trace.activated, recurring, call.WindowStart(), call.HorizonEnd(), call.actor);
  }

  lemma CoveredSame(a: Database, b: Database, id: Id, windowStart: Time, windowEnd: Time)
    requires a.obligations == b.obligations && a.instances == b.instances
    requires Covered(a, id, windowStart, windowEnd)
    ensures Covered(b, id, windowStart, windowEnd)
  {
  }

  /** Scheduling and activation of a repeated cycle do nothing. */
  lemma RepeatSchedulesNothing(db: Database, call: CycleCall, rows: CycleRows, trace: CycleTrace,
                               rows': CycleRows, trace': CycleTrace)
    requires FullCycle(db, call, rows, trace)
    requires CycleRuns(trace.activated, call, UNLOCKED, rows', trace')
    requires trace'.materialized == trace.activated
    ensures trace'.scheduled == trace'.cancelled
    ensures rows'.due == [] && trace'.activated == trace'.scheduled
  {
    hide Inv, MaterializeAll, CancelAll, AddAlerts, ObligationSpecs, InstanceSpecs, Wanted;
    SchedulePhaseFacts(db, call, UNLOCKED, rows, trace);
    ReadyPhaseFacts(db, call, UNLOCKED, rows, trace);
    CancelPhaseFacts(trace.activated, call, UNLOCKED, rows', trace');
    var specs := ObligationSpecs(trace'.cancelled, rows'.obligations) + InstanceSpecs(trace'.cancelled, rows'.instances);
    forall s | s in specs
      ensures s.key in KeysOf(trace'.cancelled.alerts)
    {
      SpecsAreWanted(trace'.cancelled, call.HorizonEnd(), rows'.obligations, rows'.instances, s);
      WantedSame(trace'.cancelled, trace.cancelled, call.HorizonEnd(), s);
      var a :| a in trace.scheduled.alerts && trace.scheduled.alerts[a].spec.key == s.key;
      assert trace'.cancelled.alerts[a].spec.key == s.key;
    }
    AddAlertsNothing(trace'.cancelled, specs);
    NothingDueAfterCycle(db, call, rows, trace);
    assert DueAlerts(trace'.scheduled, call.now) == {};
    ListsEmpty(rows'.due, DueAlerts(trace'.scheduled, call.now) - {});
  }

  /** A second cycle at the same instant materializes, schedules and activates nothing; all it does
      is cancel the alerts of open occurrences whose obligation has ended. */
  lemma SecondCycle(db: Database, call: CycleCall, rows: CycleRows, trace: CycleTrace, rows': CycleRows,
                    trace': CycleTrace)
    requires FullCycle(db, call, rows, trace)
    requires CycleRuns(trace.activated, call, UNLOCKED, rows', trace')
    ensures trace'.created == 0 && trace'.materialized == trace.activated
    ensures trace'.scheduled == trace'.cancelled
    ensures rows'.due == [] && trace'.activated == trace'.cancelled
    ensures forall a :: a in rows'.cancellable ==>
              a in trace.activated.alerts && IsOrphan(trace.activated, trace.activated.alerts[a])
  {
    hide Inv, MaterializeAll, CancelAll, AddAlerts, ReadyAll, ObligationSpecs, InstanceSpecs, IsOrphan;
    RepeatMaterializesNothing(db, call, rows, trace, rows'.recurring);
    RepeatSchedulesNothing(db, call, rows, trace, rows', trace');
    OnlyOrphansLeft(db, call, rows, trace);
  }

  /** A third cycle changes nothing at all: rows, logs and outbox are what the second left. */
  lemma ThirdCycle(db: Database, call: CycleCall, rows: CycleRows, trace: CycleTrace,
                   rows': CycleRows, trace': CycleTrace, rows'': CycleRows, trace'': CycleTrace)
    requires FullCycle(db, call, rows, trace)
    requires CycleRuns(trace.activated, call, UNLOCKED, rows', trace')
    requires CycleRuns(trace'.activated, call, UNLOCKED, rows'', trace'')
    ensures trace''.activated == trace'.activated
  {
    hide Inv, MaterializeAll, AddAlerts, ReadyAll, ObligationSpecs, InstanceSpecs;
    CycleKeeps(db, call, UNLOCKED, rows, trace);
    SecondCycle(db, call, rows, trace, rows', trace');
    SecondCycle(trace.activated, call, rows', trace', rows'', trace'');
    OnlyOrphansLeft(trace.activated, call, rows', trace');
    assert CancellableAlerts(trace'.activated) == {} by {
      assert trace'.activated.alerts == trace'.cancelled.alerts;
    }
    ListsEmpty(rows''.cancellable, CancellableAlerts(trace''.materialized) - {});
    assert trace''.cancelled == trace''.materialized;
  }

  // A cancelled alert's key

  /** What a cycle does to one stored alert: cancelled when its work has ended and it is free then,
      else delivered when it is due and free then, else untouched. */
  lemma LockedAlertFate(db: Database, call: CycleCall, locks: Locks, rows: CycleRows, trace: CycleTrace, a: Id)
    requires Inv(db) && CycleRuns(db, call, locks, rows, trace)
    requires a in db.alerts
    ensures a in trace.activated.alerts
    ensures trace.activated.alerts[a] ==
              if IsCancellable(trace.activated, db.alerts[a]) && a !in locks.cancelling then Cancelled(db.alerts[a])
              else if IsDue(db.alerts[a], call.now) && a !in locks.activating then Readied(db.alerts[a], call.now)
              else db.alerts[a]
  {
    hide Inv, CycleRuns, Wanted;
    MaterializePhaseFacts(db, call, locks, rows, trace);
    CancelPhaseFacts(db, call, locks, rows, trace);
    SchedulePhaseFacts(db, call, locks, rows, trace);
    ReadyPhaseFacts(db, call, locks, rows, trace);
  }

  /** The same with nothing locked: cancelled when its work has ended, else delivered when due, else
      untouched. */
  lemma AlertFate(db: Database, call: CycleCall, rows: CycleRows, trace: CycleTrace, a: Id)
    requires FullCycle(db, call, rows, trace)
    requires a in db.alerts
    ensures a in trace.activated.alerts
    ensures trace.activated.alerts[a] ==
              if IsCancellable(trace.activated, db.alerts[a]) then Cancelled(db.alerts[a])
              else if IsDue(db.alerts[a], call.now) then Readied(db.alerts[a], call.now)
              else db.alerts[a]
  {
    hide Inv, CycleRuns, IsCancellable, IsDue;
    LockedAlertFate(db, call, UNLOCKED, rows, trace, a);
  }

  /** An alert new in a cycle is scheduled or, when already due, delivered. */
  lemma NewAlertFate(db: Database, call: CycleCall, rows: CycleRows, trace: CycleTrace, a: Id)
    requires FullCycle(db, call, rows, trace)
    requires a in trace.activated.alerts && a !in db.alerts
    ensures Wanted(trace.activated, call.HorizonEnd(), trace.activated.alerts[a].spec)
    ensures if trace.activated.alerts[a].spec.scheduledFor <= call.now then trace.activated.alerts[a].status.AlertReady?
            else trace.activated.alerts[a].status.AlertScheduled?
  {
    hide Inv, CycleRuns, Wanted;
    MaterializePhaseFacts(db, call, UNLOCKED, rows, trace);
    CancelPhaseFacts(db, call, UNLOCKED, rows, trace);
    SchedulePhaseFacts(db, call, UNLOCKED, rows, trace);
    ReadyPhaseFacts(db, call, UNLOCKED, rows, trace);
    WantedSame(trace.activated, trace.cancelled, call.HorizonEnd(), trace.scheduled.alerts[a].spec);
  }

  /** An earlier alert with this key that a cycle would leave cancelled: already cancelled, or
      still pending although its obligation has ended. */
  predicate Silencing(db: Database, b: Id, key: AlertKey)
    requires b in db.alerts
  {
    && db.alerts[b].spec.key == key
    && (|| db.alerts[b].status.AlertCancelled?
        || ((db.alerts[b].status.AlertScheduled? || db.alerts[b].status.AlertReady?)
            && db.alerts[b].spec.obligation in db.obligations
            && IsTerminal(db.obligations[db.alerts[b].spec.obligation].status)))
  }

  /** A wanted alert's key names its target. */
  lemma WantedKey(db: Database, horizonEnd: Time, s: AlertSpec)
    requires Wanted(db, horizonEnd, s)
    ensures s.key.target == if s.instance.Some? then s.instance.value else s.obligation
    ensures s.instance.None? ==> s.obligation in db.obligations
    ensures s.instance.Some? ==> s.instance.value in db.instances && db.instances[s.instance.value].obligation == s.obligation
  {
    if o :| o in ScheduledObligations(db, horizonEnd) && s in SpecsFor(ObligationTarget(o, db.obligations[o])) {
      SpecNamesTarget(ObligationTarget(o, db.obligations[o]), s);
    }
    if i :| i in ScheduledInstances(db, horizonEnd) && s in SpecsFor(InstanceTarget(i, db.instances[i])) {
      SpecNamesTarget(InstanceTarget(i, db.instances[i]), s);
    }
  }

  /** A stored alert with a wanted alert's key is about the same work. */
  lemma SameTarget(db: Database, horizonEnd: Time, s: AlertSpec, a: Id)
    requires Inv(db) && Wanted(db, horizonEnd, s) && a in db.alerts && db.alerts[a].spec.key == s.key
    ensures db.alerts[a].spec.instance == s.instance && db.alerts[a].spec.obligation == s.obligation
  {
    hide Wanted, OnePerFact, OnePerTime, OnePerHash, OnePerKey, CompletedEvidenced, ObligationOk, InstanceOk, EvidenceOk;
    hide ObligationLog, InstanceLog, AlertLog, InstanceAlertLog, Delivered;
    WantedKey(db, horizonEnd, s);
    assert AlertOk(db.alerts[a]);
  }

  /** Open work does not always have a live alert. After a cycle the one stored alert with a wanted
      alert's key is cancelled exactly when an alert with that key was stored before and was cancelled,
      or pending under an ended obligation: the key blocks a replacement. */
  lemma SilentIffSilencedBefore(db: Database, call: CycleCall, rows: CycleRows, trace: CycleTrace, s: AlertSpec, a: Id)
    requires FullCycle(db, call, rows, trace)
    requires Wanted(trace.activated, call.HorizonEnd(), s)
    requires a in trace.activated.alerts && trace.activated.alerts[a].spec.key == s.key
    ensures trace.activated.alerts[a].status.AlertCancelled? <==>
              exists b :: b in db.alerts && Silencing(db, b, s.key)
  {
    hide Inv, CycleRuns, Wanted;
    WantedTarget(trace.activated, call.HorizonEnd(), s);
    CycleObligations(db, call, rows, trace);
    CycleKeeps(db, call, UNLOCKED, rows, trace);
    SameTarget(trace.activated, call.HorizonEnd(), s, a);
    if a in db.alerts {
      AlertFate(db, call, rows, trace, a);
      if trace.activated.alerts[a].status.AlertCancelled? {
        assert Silencing(db, a, s.key);
      }
    } else {
      NewAlertFate(db, call, rows, trace, a);
    }
    if b :| b in db.alerts && Silencing(db, b, s.key) {
      AlertFate(db, call, rows, trace, b);
      KeysUnique(trace.activated);
      assert a == b;
    }
  }

  lemma CycleObligations(db: Database, call: CycleCall, rows: CycleRows, trace: CycleTrace)
    requires FullCycle(db, call, rows, trace)
    ensures trace.activated.obligations == db.obligations
  {
    hide Inv, CycleRuns, Wanted;
    MaterializePhaseFacts(db, call, UNLOCKED, rows, trace);
    CancelPhaseFacts(db, call, UNLOCKED, rows, trace);
    SchedulePhaseFacts(db, call, UNLOCKED, rows, trace);
    ReadyPhaseFacts(db, call, UNLOCKED, rows, trace);
  }

  /** The failing family: waive open work, run a cycle, reopen it, run a cycle again. Its alert is
      cancelled by the first cycle and never replaced by the second. */
  lemma ReopenedWorkStaysSilent(db: Database, o: Id, a: Id, call: CycleCall, who: Actor, waivedAt: Time, reopenedAt: Time,
                                rows: CycleRows, trace: CycleTrace, rows': CycleRows, trace': CycleTrace, call': CycleCall,
                                waived: Database, reopened: Database)
    requires Inv(db)
    requires o in db.obligations && a in db.alerts && db.alerts[a].spec.obligation == o
    requires db.alerts[a].status.AlertScheduled? || db.alerts[a].status.AlertReady?
    requires Transition(db, o, Waived, db.obligations[o].revision, who, waivedAt) == Success(waived)
    requires CycleRuns(waived, call, UNLOCKED, rows, trace)
    requires o in trace.activated.obligations
    requires Transition(trace.activated, o, Active, trace.activated.obligations[o].revision, who, reopenedAt) == Success(reopened)
    requires CycleRuns(reopened, call', UNLOCKED, rows', trace')
    ensures a in trace'.activated.alerts && trace'.activated.alerts[a].status.AlertCancelled?
    ensures forall b :: b in trace'.activated.alerts && trace'.activated.alerts[b].spec.key == db.alerts[a].spec.key ==> b == a
  {
    hide Inv, CycleRuns, ValidateCompletion;
    TransitionKeeps(db, o, Waived, db.obligations[o].revision, who, waivedAt);
    CycleObligations(waived, call, rows, trace);
    AlertFate(waived, call, rows, trace, a);
    CycleKeeps(waived, call, UNLOCKED, rows, trace);
    TransitionKeeps(trace.activated, o, Active, trace.activated.obligations[o].revision, who, reopenedAt);
    AlertFate(reopened, call', rows', trace', a);
    CycleKeeps(reopened, call', UNLOCKED, rows', trace');
    KeysUnique(trace'.activated);
  }
}
