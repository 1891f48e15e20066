/** What each phase of a cycle leaves alone, what it changes, and that it keeps the invariant. */
module CyclePhases {
  import opened Common
  import opened EscalationPolicy
  import opened Tables
  import opened Workflow
  import opened Occurrences
  import opened Alerts
  import opened EventLog
  import opened Invariants
  import opened Preservation

  /** The tables a phase over alerts does not write. */
  ghost predicate SameWork(a: Database, b: Database) {
    && a.facts == b.facts
    && a.members == b.members
    && a.obligations == b.obligations
    && a.instances == b.instances
    && a.evidence == b.evidence
  }

  // Cancelling

  lemma {:induction false} CancelAllRows(db: Database, rows: seq<Id>, actor: string)
    requires forall i :: 0 <= i < |rows| ==> rows[i] in db.alerts
    requires NoDuplicates(rows)
    ensures SameWork(CancelAll(db, rows, actor), db)
    ensures CancelAll(db, rows, actor).outbox == db.outbox
    ensures CancelAll(db, rows, actor).nextId == db.nextId
    ensures forall a :: a in db.alerts ==>
              CancelAll(db, rows, actor).alerts[a] == if a in rows then Cancelled(db.alerts[a]) else db.alerts[a]
  {
    if rows != [] {
      var init, last := rows[..|rows| - 1], rows[|rows| - 1];
      CancelAllRows(db, init, actor);
      assert rows == init + [last];
      assert last !in init;
    }
  }

  lemma {:induction false} CancelAllKeeps(db: Database, rows: seq<Id>, actor: string)
    requires Inv(db)
    requires NoDuplicates(rows)
    requires forall i :: 0 <= i < |rows| ==>
               rows[i] in db.alerts && (db.alerts[rows[i]].status.AlertScheduled? || db.alerts[rows[i]].status.AlertReady?)
    ensures Inv(CancelAll(db, rows, actor))
  {
    hide Inv, CancelOne;
    if rows != [] {
      var init, last := rows[..|rows| - 1], rows[|rows| - 1];
      CancelAllKeeps(db, init, actor);
      CancelAllRows(db, init, actor);
      assert last !in init;
      CancelOneKeeps(CancelAll(db, init, actor), last, actor);
    }
  }

  // Activating

  lemma {:induction false} ReadyAllRows(db: Database, rows: seq<Id>, now: Time, actor: string)
    requires forall i :: 0 <= i < |rows| ==> rows[i] in db.alerts
    requires NoDuplicates(rows)
    ensures SameWork(ReadyAll(db, rows, now, actor), db)
    ensures ReadyAll(db, rows, now, actor).nextId == db.nextId
    ensures forall a :: a in db.alerts ==>
              ReadyAll(db, rows, now, actor).alerts[a] == if a in rows then Readied(db.alerts[a], now) else db.alerts[a]
    ensures |ReadyAll(db, rows, now, actor).outbox| == |db.outbox| + |rows|
    ensures forall i :: 0 <= i < |db.outbox| ==> ReadyAll(db, rows, now, actor).outbox[i] == db.outbox[i]
    ensures forall i :: 0 <= i < |rows| ==>
              ReadyAll(db, rows, now, actor).outbox[|db.outbox| + i] == AlertReadyEvent(rows[i], db.alerts[rows[i]].spec)
  {
    if rows != [] {
      var init, last := rows[..|rows| - 1], rows[|rows| - 1];
      ReadyAllRows(db, init, now, actor);
      assert rows == init + [last];
      assert last !in init;
    }
  }

  lemma {:induction false} ReadyAllKeeps(db: Database, rows: seq<Id>, now: Time, actor: string)
    requires Inv(db)
    requires NoDuplicates(rows)
    requires forall i :: 0 <= i < |rows| ==> rows[i] in db.alerts && db.alerts[rows[i]].status.AlertScheduled?
    ensures Inv(ReadyAll(db, rows, now, actor))
  {
    hide Inv, ReadyOne;
    if rows != [] {
      var init, last := rows[..|rows| - 1], rows[|rows| - 1];
      ReadyAllKeeps(db, init, now, actor);
      ReadyAllRows(db, init, now, actor);
      assert last !in init;
      ReadyOneKeeps(ReadyAll(db, init, now, actor), last, now, actor);
    }
  }

  // Scheduling

  /** A spec some open target of the tables asks for. */
  ghost predicate SpecFits(db: Database, s: AlertSpec) {
    && SpecOk(s)
    && s.obligation in db.obligations
    && (s.instance.Some? ==> s.instance.value in db.instances && db.instances[s.instance.value].obligation == s.obligation)
  }

  lemma SpecsForFit(db: Database, t: Target)
    requires t.obligation in db.obligations
    requires t.instance.Some? ==> t.instance.value in db.instances && db.instances[t.instance.value].obligation == t.obligation
    ensures forall i :: 0 <= i < |SpecsFor(t)| ==> SpecFits(db, SpecsFor(t)[i])
  {
  }

  lemma {:induction false} ObligationSpecsFit(db: Database, rows: seq<Id>)
    requires forall i :: 0 <= i < |rows| ==> rows[i] in db.obligations && db.obligations[rows[i]].dueAt.Some?
    ensures forall i :: 0 <= i < |ObligationSpecs(db, rows)| ==> SpecFits(db, ObligationSpecs(db, rows)[i])
  {
    hide SpecFits, SpecsFor;
    if rows != [] {
      ObligationSpecsFit(db, rows[..|rows| - 1]);
      var last := rows[|rows| - 1];
      SpecsForFit(db, ObligationTarget(last, db.obligations[last]));
    }
  }

  lemma {:induction false} InstanceSpecsFit(db: Database, rows: seq<Id>)
    requires forall i :: 0 <= i < |rows| ==> rows[i] in db.instances
    requires forall i :: i in db.instances ==> db.instances[i].obligation in db.obligations
    ensures forall i :: 0 <= i < |InstanceSpecs(db, rows)| ==> SpecFits(db, InstanceSpecs(db, rows)[i])
  {
    hide SpecFits, SpecsFor;
    if rows != [] {
      InstanceSpecsFit(db, rows[..|rows| - 1]);
      var last := rows[|rows| - 1];
      SpecsForFit(db, InstanceTarget(last, db.instances[last]));
    }
  }

  /** `d` is `db` with alerts added, each scheduled and built from one of the specs. */
  ghost predicate AddsAlerts(db: Database, d: Database, specs: seq<AlertSpec>) {
    && SameWork(d, db)
    && d.outbox == db.outbox && d.events == db.events && d.instanceEvents == db.instanceEvents
    && d.nextId >= db.nextId
    && (forall a :: a in d.alerts ==> a < d.nextId)
    && (forall a :: a in db.alerts ==> a in d.alerts && d.alerts[a] == db.alerts[a])
    && (forall a :: a in d.alerts && a !in db.alerts ==> d.alerts[a].status.AlertScheduled? && d.alerts[a].spec in specs)
  }

  lemma KeysGrow(a: map<Id, Alert>, b: map<Id, Alert>)
    requires forall x :: x in a ==> x in b && b[x].spec == a[x].spec
    ensures KeysOf(a) <= KeysOf(b)
  {
  }

  lemma AddAlertRow(db: Database, before: Database, init: seq<AlertSpec>, last: AlertSpec)
    requires AddsAlerts(db, before, init)
    ensures AddsAlerts(db, before, init + [last])
    ensures AddsAlerts(db, AddAlert(before, last), init + [last])
    ensures last.key in KeysOf(AddAlert(before, last).alerts)
    ensures KeysOf(before.alerts) <= KeysOf(AddAlert(before, last).alerts)
  {
    var d := AddAlert(before, last);
    assert d.alerts[before.nextId].spec.key == last.key;
    KeysGrow(before.alerts, d.alerts);
  }

  /** Scheduling adds alerts and changes nothing else; afterwards every spec's key is stored. */
  lemma {:induction false} AddAlertsRows(db: Database, specs: seq<AlertSpec>)
    requires forall a :: a in db.alerts ==> a < db.nextId
    ensures AddsAlerts(db, AddAlerts(db, specs), specs)
    ensures forall s :: s in specs ==> s.key in KeysOf(AddAlerts(db, specs).alerts)
  {
    hide AddAlert, KeysOf;
    if specs != [] {
      var init, last := specs[..|specs| - 1], specs[|specs| - 1];
      AddAlertsRows(db, init);
      assert specs == init + [last];
      AddAlertRow(db, AddAlerts(db, init), init, last);
    }
  }

  lemma {:induction false} AddAlertsKeeps(db: Database, specs: seq<AlertSpec>)
    requires Inv(db)
    requires forall i :: 0 <= i < |specs| ==> SpecFits(db, specs[i])
    ensures Inv(AddAlerts(db, specs))
  {
    if specs != [] {
      var init, last := specs[..|specs| - 1], specs[|specs| - 1];
      AddAlertsKeeps(db, init);
      AddAlertsRows(db, init);
      var before := AddAlerts(db, init);
      assert SpecFits(before, last);
      if last.key !in KeysOf(before.alerts) {
        AddAlertKeeps(before, last);
      }
    }
  }

  // Materializing

  /** The tables materialization does not write, and what it keeps of those it does. */
  ghost predicate AddsInstances(db: Database, d: Database) {
    && d.facts == db.facts && d.members == db.members && d.obligations == db.obligations
    && d.evidence == db.evidence && d.alerts == db.alerts && d.outbox == db.outbox
    && d.nextId >= db.nextId
    && db.events <= d.events && db.instanceEvents <= d.instanceEvents
    && (forall i :: i in d.instances ==> i < d.nextId)
    && (forall i :: i in db.instances ==> i in d.instances && d.instances[i] == db.instances[i])
  }

  /** The new occurrences are snapshots of one obligation at some of the given instants. */
  ghost predicate NewSnapshots(db: Database, d: Database, id: Id, o: Obligation, times: seq<Time>)
    requires o.recurrence.Some?
  {
    forall i :: i in d.instances && i !in db.instances ==>
      d.instances[i] == Snapshot(id, o, d.instances[i].scheduledFor) && d.instances[i].scheduledFor in times
  }

  lemma AddOccurrenceRow(db: Database, before: Database, id: Id, init: seq<Time>, last: Time, actor: string)
    requires AddsInstances(db, before)
    requires id in db.obligations && db.obligations[id].recurrence.Some?
    requires NewSnapshots(db, before, id, db.obligations[id], init)
    ensures AddsInstances(db, AddOccurrence(before, id, last, actor))
    ensures NewSnapshots(db, AddOccurrence(before, id, last, actor), id, db.obligations[id], init + [last])
    ensures Schedules(AddOccurrence(before, id, last, actor), id) == Schedules(before, id) + {last}
  {
    var d := AddOccurrence(before, id, last, actor);
    assert d.instances[before.nextId].scheduledFor == last;
    forall t
      ensures t in Schedules(d, id) <==> t in Schedules(before, id) + {last}
    {
      if t in Schedules(before, id) {
        var i :| i in before.instances && before.instances[i].obligation == id && before.instances[i].scheduledFor == t;
        assert d.instances[i].scheduledFor == t;
      }
    }
  }

  /** Materialization stores exactly the missing instants, as snapshots of the obligation. */
  lemma {:induction false} AddMissingRows(db: Database, id: Id, times: seq<Time>, actor: string)
    requires id in db.obligations && db.obligations[id].recurrence.Some?
    requires forall i :: i in db.instances ==> i < db.nextId
    ensures var d := AddMissing(db, id, times, actor).0;
            && AddsInstances(db, d)
            && d.events == db.events
            && NewSnapshots(db, d, id, db.obligations[id], times)
            && Schedules(d, id) == Schedules(db, id) + (set t | t in times)
  {
    hide Schedules, AddsInstances, NewSnapshots;
    if times == [] {
      NoOccurrenceRow(db, id);
    } else {
      var init, last := times[..|times| - 1], times[|times| - 1];
      AddMissingRows(db, id, init, actor);
      assert times == init + [last];
      var before := AddMissing(db, id, init, actor).0;
      ScheduledIff(before, id, last);
      if !IsScheduledAt(before, id, last) {
        AddOccurrenceRow(db, before, id, init, last, actor);
      } else {
        NewSnapshotsWiden(db, before, id, init, last);
      }
    }
  }

  lemma NoOccurrenceRow(db: Database, id: Id)
    requires id in db.obligations && db.obligations[id].recurrence.Some?
    requires forall i :: i in db.instances ==> i < db.nextId
    ensures AddsInstances(db, db) && NewSnapshots(db, db, id, db.obligations[id], [])
  {
  }

  lemma ScheduledIff(db: Database, id: Id, t: Time)
    ensures IsScheduledAt(db, id, t) <==> t in Schedules(db, id)
  {
  }

  lemma NewSnapshotsWiden(db: Database, d: Database, id: Id, init: seq<Time>, last: Time)
    requires id in db.obligations && db.obligations[id].recurrence.Some?
    requires NewSnapshots(db, d, id, db.obligations[id], init)
    ensures NewSnapshots(db, d, id, db.obligations[id], init + [last])
  {
  }

  lemma MaterializeRows(db: Database, id: Id, windowStart: Time, windowEnd: Time, actor: string)
    requires Materialize(db, id, windowStart, windowEnd, actor).Success?
    requires forall i :: i in db.instances ==> i < db.nextId
    ensures var d := Materialize(db, id, windowStart, windowEnd, actor).value.0;
            var times := Between(db.obligations[id].recurrence.value.occurs, windowStart, windowEnd);
            && AddsInstances(db, d)
            && NewSnapshots(db, d, id, db.obligations[id], times)
            && Schedules(d, id) == Schedules(db, id) + (set t | t in times)
  {
    hide Between, AddMissing;
    var times := Expand(db.obligations[id].recurrence.value, windowStart, windowEnd).value;
    AddMissingRows(db, id, times, actor);
  }

  /** Every new occurrence belongs to one of the rows and is open. */
  ghost predicate NewAmong(db: Database, d: Database, rows: seq<Id>) {
    forall i :: i in d.instances && i !in db.instances ==>
      d.instances[i].obligation in rows && d.instances[i].status.Scheduled?
  }

  lemma MaterializeNewAmong(db: Database, id: Id, windowStart: Time, windowEnd: Time, actor: string)
    requires Materialize(db, id, windowStart, windowEnd, actor).Success?
    requires forall i :: i in db.instances ==> i < db.nextId
    ensures AddsInstances(db, Materialize(db, id, windowStart, windowEnd, actor).value.0)
    ensures NewAmong(db, Materialize(db, id, windowStart, windowEnd, actor).value.0, [id])
  {
    MaterializeRows(db, id, windowStart, windowEnd, actor);
  }

  lemma {:induction false} MaterializeAllRows(db: Database, rows: seq<Id>, windowStart: Time, windowEnd: Time,
                                              actor: string)
    requires MaterializeAll(db, rows, windowStart, windowEnd, actor).Success?
    requires forall i :: i in db.instances ==> i < db.nextId
    ensures AddsInstances(db, MaterializeAll(db, rows, windowStart, windowEnd, actor).value.0)
    ensures NewAmong(db, MaterializeAll(db, rows, windowStart, windowEnd, actor).value.0, rows)
  {
    hide Materialize;
    if rows != [] {
      var init, last := rows[..|rows| - 1], rows[|rows| - 1];
      MaterializeAllRows(db, init, windowStart, windowEnd, actor);
      assert rows == init + [last];
      MaterializeNewAmong(MaterializeAll(db, init, windowStart, windowEnd, actor).value.0, last, windowStart, windowEnd, actor);
    }
  }

  lemma {:induction false} MaterializeAllKeeps(db: Database, rows: seq<Id>, windowStart: Time, windowEnd: Time,
                                               actor: string)
    requires Inv(db)
    requires MaterializeAll(db, rows, windowStart, windowEnd, actor).Success?
    ensures Inv(MaterializeAll(db, rows, windowStart, windowEnd, actor).value.0)
  {
    hide Inv, Materialize;
    if rows != [] {
      var init, last := rows[..|rows| - 1], rows[|rows| - 1];
      MaterializeAllKeeps(db, init, windowStart, windowEnd, actor);
      MaterializeKeeps(MaterializeAll(db, init, windowStart, windowEnd, actor).value.0, last, windowStart, windowEnd, actor);
    }
  }

  // A whole cycle

  lemma CycleKeepsMaterialized(db: Database, call: CycleCall, locks: Locks, rows: CycleRows, trace: CycleTrace)
    requires Inv(db)
    requires CycleRuns(db, call, locks, rows, trace)
    ensures Inv(trace.materialized)
  {
    hide Inv, MaterializeAll;
    MaterializeAllKeeps(db, rows.recurring, call.WindowStart(), call.HorizonEnd(), call.actor);
  }

  lemma CycleKeepsCancelled(db: Database, call: CycleCall, locks: Locks, rows: CycleRows, trace: CycleTrace)
    requires Inv(db)
    requires CycleRuns(db, call, locks, rows, trace)
    ensures Inv(trace.cancelled)
  {
    hide Inv, MaterializeAll, CancelAll, AddAlerts, ReadyAll;
    CycleKeepsMaterialized(db, call, locks, rows, trace);
    forall i | 0 <= i < |rows.cancellable|
      ensures rows.cancellable[i] in CancellableAlerts(trace.materialized)
    {
      assert rows.cancellable[i] in rows.cancellable;
    }
    CancelAllKeeps(trace.materialized, rows.cancellable, call.actor);
  }

  lemma CycleKeepsScheduled(db: Database, call: CycleCall, locks: Locks, rows: CycleRows, trace: CycleTrace)
    requires Inv(db)
    requires CycleRuns(db, call, locks, rows, trace)
    ensures Inv(trace.scheduled)
  {
    hide MaterializeAll, CancelAll, AddAlerts, ReadyAll, ObligationSpecs, InstanceSpecs;
    hide SpecFits, CancelQuery, DueQuery, ScheduleQuery;
    CycleKeepsCancelled(db, call, locks, rows, trace);
    ObligationSpecsFit(trace.cancelled, rows.obligations);
    InstancesHaveParents(trace.cancelled);
    InstanceSpecsFit(trace.cancelled, rows.instances);
    hide Inv;
    AddAlertsKeeps(trace.cancelled,
      ObligationSpecs(trace.cancelled, rows.obligations) + InstanceSpecs(trace.cancelled, rows.instances));
  }

  lemma InstancesHaveParents(db: Database)
    requires Inv(db)
    ensures forall i :: i in db.instances ==> db.instances[i].obligation in db.obligations
  {
  }

  /** A cycle keeps the invariant, after each of its phases. */
  lemma CycleKeeps(db: Database, call: CycleCall, locks: Locks, rows: CycleRows, trace: CycleTrace)
    requires Inv(db)
    requires CycleRuns(db, call, locks, rows, trace)
    ensures Inv(trace.materialized) && Inv(trace.cancelled) && Inv(trace.scheduled) && Inv(trace.activated)
  {
    hide Inv, MaterializeAll, CancelAll, AddAlerts, ReadyAll;
    CycleKeepsMaterialized(db, call, locks, rows, trace);
    CycleKeepsCancelled(db, call, locks, rows, trace);
    CycleKeepsScheduled(db, call, locks, rows, trace);
    forall i | 0 <= i < |rows.due|
      ensures rows.due[i] in DueAlerts(trace.scheduled, call.now)
    {
      assert rows.due[i] in rows.due;
    }
    ReadyAllKeeps(trace.scheduled, rows.due, call.now, call.actor);
  }
}
