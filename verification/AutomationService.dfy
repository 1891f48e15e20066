/** The automation service: the phases of a cycle as loops over query results, the cycle, and the
    pass over every organization. */
module AutomationServices {
  import opened Common
  import opened EscalationPolicy
  import opened Tables
  import opened Workflow
  import opened Occurrences
  import opened Alerts
  import opened EventLog
  import opened Invariants
  import opened Preservation
  import opened CyclePhases
  import opened Runs
  import opened Evolution
  import opened DatabaseSession
  import opened RecurringServices

  const LOOKUP_BATCH := 1000

  /** `_build_specs`: the target's alerts; refused only when its policy is not acceptable, which a
      stored policy always is. */
  method BuildSpecs(t: Target) returns (r: Result<seq<AlertSpec>, PolicyError>)
    ensures r.Success? <==> Acceptable(AsRaw(t.policy))
    ensures r.Success? ==> r.value == SpecsWith(t, CanonicalOf(AsRaw(t.policy)))
    ensures Canonical(t.policy) ==> r == Success(SpecsFor(t))
  {
    hide Acceptable, CanonicalOf, AsRaw, Canonical, FirstFault;
    if Canonical(t.policy) {
      NormalizationIdempotent(t.policy);
    }
    var steps :- NormalizeEscalationPolicy(AsRaw(t.policy));
    var defaultRole := if t.owner.Some? then None else Some(DEFAULT_ROLE);
    var specs := [SpecOf(t, Due, 0, t.dueAt, defaultRole, None)];
    if t.leadTimeDays > 0 {
      specs := specs + [SpecOf(t, Reminder, 0, t.dueAt - t.leadTimeDays * DAY, defaultRole, None)];
    }
    assert specs == OwnSpecs(t);
    for i := 0 to |steps|
      invariant specs == OwnSpecs(t) + EscalationSpecs(t, steps)[..i]
    {
      var step := steps[i];
      var targetRole := if step.recipient.Owner? && t.owner.Some? then None else Some(step.recipient);
      if step.recipient.Owner? && t.owner.None? {
        targetRole := Some(DEFAULT_ROLE);
      }
      var spec := SpecOf(t, Escalation, i + 1, t.dueAt + step.afterDays * DAY, targetRole, Some(step));
      assert spec == EscalationSpecs(t, steps)[i];
      specs := specs + [spec];
    }
    return Success(specs);
  }

  lemma NoneReady(db: Database, now: Time, actor: string)
    ensures ReadyAll(db, [], now, actor) == db
  {
  }

  lemma ReadyAllNext(db: Database, rows: seq<Id>, k: nat, now: Time, actor: string)
    requires k < |rows| && forall i :: 0 <= i < |rows| ==> rows[i] in db.alerts
    ensures ReadyAll(db, rows[..k], now, actor).alerts.Keys == db.alerts.Keys
    ensures ReadyAll(db, rows[..k + 1], now, actor) == ReadyOne(ReadyAll(db, rows[..k], now, actor), rows[k], now, actor)
  {
    assert rows[..k + 1][..k] == rows[..k];
  }

  class ObligationAutomationService {
    const session: Session
    const recurring: RecurringObligationService

    constructor (session: Session)
      ensures this.session == session && recurring.session == session
    {
      this.session := session;
      this.recurring := new RecurringObligationService(session);
    }

    predicate Valid()
    {
      recurring.session == session
    }

    /** `_materialize_recurring` */
    method MaterializeRecurring(windowStart: Time, windowEnd: Time, actor: string)
      returns (r: Result<nat, Error>, ghost rows: seq<Id>)
      requires Valid() && Inv(session.Tables())
      modifies session
      ensures r.Success? ==>
                && Lists(rows, RecurringObligations(old(session.Tables())))
                && MaterializeAll(old(session.Tables()), rows, windowStart, windowEnd, actor) == Success((session.Tables(), r.value))
      ensures r.Failure? ==> SomeExpansionFails(old(session.Tables()), windowStart, windowEnd, r.error)
    {
      hide Inv, Materialize, Expand, Between;
      var obligations := Query(set o | o in session.obligations && IsOpen(session.obligations[o].status)
                                       && session.obligations[o].dueAt.Some?);
      ghost var before := session.Tables();
      rows := [];
      var created: nat := 0;
      for k := 0 to |obligations|
        invariant session.obligations == before.obligations && Inv(session.Tables())
        invariant SkipNonRecurring(before, obligations[..k], rows)
        invariant MaterializeAll(before, rows, windowStart, windowEnd, actor) == Success((session.Tables(), created))
      {
        assert obligations[..k + 1] == obligations[..k] + [obligations[k]];
        assert obligations[k] in obligations;
        if session.obligations[obligations[k]].recurrence.Some? {
          ghost var longer := rows + [obligations[k]];
          assert longer[..|rows|] == rows;
          Counters(session.Tables());
          TimesUnique(session.Tables());
          ghost var d := session.Tables();
          var result := recurring.Materialize(obligations[k], windowStart, windowEnd, actor);
          if result.Failure? {
            MaterializeFailsInExpansion(d, obligations[k], windowStart, windowEnd, actor);
            return Failure(result.error), rows;
          }
          created := created + result.value.1;
          MaterializeKeeps(d, obligations[k], windowStart, windowEnd, actor);
          rows := longer;
        }
      }
      assert obligations[..|obligations|] == obligations;
      r := Success(created);
    }

    /** `_cancel_terminal_alerts`, the alerts in `lockedRows` being skipped */
    method CancelTerminalAlerts(lockedRows: set<Id>, actor: string) returns (cancelled: nat, ghost rows: seq<Id>)
      modifies session
      ensures CancelQuery(old(session.Tables()), rows, lockedRows)
      ensures forall i :: 0 <= i < |rows| ==> rows[i] in old(session.Tables()).alerts
      ensures session.Tables() == CancelAll(old(session.Tables()), rows, actor)
      ensures cancelled == |rows|
    {
      ghost var before := session.Tables();
      var alerts := Query(CancellableAlerts(session.Tables()) - lockedRows);
      forall i | 0 <= i < |alerts|
        ensures alerts[i] in before.alerts
      {
        assert alerts[i] in alerts;
      }
      for k := 0 to |alerts|
        invariant session.Tables() == CancelAll(before, alerts[..k], actor)
      {
        assert alerts[..k + 1][..k] == alerts[..k];
        var alert := session.alerts[alerts[k]];
        alert := alert.(status := AlertStatus.AlertCancelled);
        alert := alert.(revision := alert.revision + 1);
        RecordAlertEvent(alerts[k], alert, CancelRecorded, actor);
      }
      assert alerts[..|alerts|] == alerts;
      cancelled, rows := |alerts|, alerts;
    }

    /** `_record_alert_event`, with the row it is about */
    method RecordAlertEvent(id: Id, a: Alert, step: AlertStep, actor: string)
      modifies session
      ensures session.Tables() == RecordAlert(old(session.Tables()), id, a, step, actor)
    {
      session.alerts := session.alerts[id := a];
      session.events := session.events + [ObligationEvent(a.spec.obligation, actor, None, None, AlertChanged(id, step))];
      if a.spec.instance.Some? {
        session.instanceEvents := session.instanceEvents +
          [InstanceEvent(a.spec.instance.value, actor, None, None, InstanceAlertChanged(id, step))];
      } else {
        assert session.instanceEvents + [] == session.instanceEvents;
      }
    }

    /** `_activate_due_alerts`, the alerts in `lockedRows` being skipped */
    method ActivateDueAlerts(now: Time, lockedRows: set<Id>, actor: string) returns (ready: nat, ghost rows: seq<Id>)
      modifies session
      ensures DueQuery(old(session.Tables()), now, rows, lockedRows)
      ensures session.Tables() == ReadyAll(old(session.Tables()), rows, now, actor)
      ensures ready == |rows|
    {
      hide ReadyAll;
      ghost var before := session.Tables();
      NoneReady(before, now, actor);
      var alerts := QueryByTime(session.alerts, DueAlerts(session.Tables(), now) - lockedRows);
      for k := 0 to |alerts|
        invariant session.Tables() == ReadyAll(before, alerts[..k], now, actor)
      {
        ReadyAllNext(before, alerts, k, now, actor);
        var alert := session.alerts[alerts[k]];
        alert := alert.(status := AlertReady);
        alert := alert.(readyAt := Some(now));
        alert := alert.(revision := alert.revision + 1);
        session.outbox := session.outbox + [AlertReadyEvent(alerts[k], alert.spec)];
        RecordAlertEvent(alerts[k], alert, SentStep(alert.spec.kind), actor);
      }
      assert alerts[..|alerts|] == alerts;
      ready, rows := |alerts|, alerts;
    }

    /** The lookup of stored keys in batches of a thousand: the same as one set membership query. */
    method ExistingKeys(keys: seq<AlertKey>) returns (existing: set<AlertKey>)
      ensures existing == (set k | k in keys && k in KeysOf(session.alerts))
    {
      existing := {};
      var start := 0;
      while start < |keys|
        invariant 0 <= start
        invariant existing == (set k | k in keys[..Min(start, |keys|)] && k in KeysOf(session.alerts))
        decreases |keys| - start
      {
        var end := Min(start + LOOKUP_BATCH, |keys|);
        assert keys[..end] == keys[..start] + keys[start..end];
        existing := existing + (set k | k in keys[start..end] && k in KeysOf(session.alerts));
        start := start + LOOKUP_BATCH;
      }
      assert keys[..|keys|] == keys;
    }

    /** The specs of the open, in-horizon obligations that do not recur. */
    method CollectObligationSpecs(horizonEnd: Time) returns (specs: seq<AlertSpec>, ghost rows: seq<Id>)
      requires Inv(session.Tables())
      ensures Lists(rows, ScheduledObligations(session.Tables(), horizonEnd))
      ensures forall i :: 0 <= i < |rows| ==> rows[i] in session.obligations && session.obligations[rows[i]].dueAt.Some?
      ensures specs == ObligationSpecs(session.Tables(), rows)
    {
      hide Inv, SpecsFor, SpecsWith, Canonical, Acceptable, CanonicalOf, AsRaw;
      ghost var db := session.Tables();
      var obligations := Query(set o | o in session.obligations && IsOpen(session.obligations[o].status)
                                       && session.obligations[o].dueAt.Some?
                                       && session.obligations[o].dueAt.value <= horizonEnd);
      specs := [];
      rows := [];
      for k := 0 to |obligations|
        invariant SkipRecurring(db, obligations[..k], rows)
        invariant specs == ObligationSpecs(db, rows)
      {
        assert obligations[..k + 1] == obligations[..k] + [obligations[k]];
        assert obligations[k] in obligations;
        var o := session.obligations[obligations[k]];
        if o.recurrence.None? {
          StoredPolicyCanonical(db, obligations[k]);
          var more := BuildSpecs(ObligationTarget(obligations[k], o));
          specs := specs + more.value;
          ghost var longer := rows + [obligations[k]];
          assert longer[..|rows|] == rows;
          rows := longer;
        }
      }
      assert obligations[..|obligations|] == obligations;
    }

    /** The specs of the open, in-horizon occurrences; their obligations' status is not looked at. */
    method CollectInstanceSpecs(horizonEnd: Time) returns (specs: seq<AlertSpec>, ghost rows: seq<Id>)
      requires Inv(session.Tables())
      ensures Lists(rows, ScheduledInstances(session.Tables(), horizonEnd))
      ensures forall i :: 0 <= i < |rows| ==> rows[i] in session.instances
      ensures specs == InstanceSpecs(session.Tables(), rows)
    {
      hide Inv, SpecsFor, SpecsWith, Canonical, Acceptable, CanonicalOf, AsRaw;
      ghost var db := session.Tables();
      var instances := Query(ScheduledInstances(session.Tables(), horizonEnd));
      specs := [];
      for k := 0 to |instances|
        invariant forall i :: 0 <= i < k ==> instances[i] in session.instances
        invariant specs == InstanceSpecs(db, instances[..k])
      {
        assert instances[k] in instances;
        assert instances[..k + 1][..k] == instances[..k];
        StoredSnapshotCanonical(db, instances[k]);
        var more := BuildSpecs(InstanceTarget(instances[k], session.instances[instances[k]]));
        specs := specs + more.value;
      }
      assert instances[..|instances|] == instances;
      rows := instances;
    }

    /** `_schedule_alerts` */
    method ScheduleAlerts(horizonEnd: Time) returns (created: nat, ghost obligationRows: seq<Id>, ghost instanceRows: seq<Id>)
      requires Inv(session.Tables())
      modifies session
      ensures ScheduleQuery(old(session.Tables()), horizonEnd, obligationRows, instanceRows)
      ensures forall i :: 0 <= i < |obligationRows| ==>
                obligationRows[i] in old(session.obligations) && old(session.obligations)[obligationRows[i]].dueAt.Some?
      ensures forall i :: 0 <= i < |instanceRows| ==> instanceRows[i] in old(session.instances)
      ensures session.Tables() == AddAlerts(old(session.Tables()),
                ObligationSpecs(old(session.Tables()), obligationRows) + InstanceSpecs(old(session.Tables()), instanceRows))
      ensures |session.alerts| == |old(session.alerts)| + created
    {
      hide Inv, ObligationSpecs, InstanceSpecs, AddAlerts;
      var specs, instanceSpecs;
      specs, obligationRows := CollectObligationSpecs(horizonEnd);
      instanceSpecs, instanceRows := CollectInstanceSpecs(horizonEnd);
      Counters(session.Tables());
      created := AddMissingAlerts(specs + instanceSpecs);
    }

    /** The specs whose key is not stored yet become alerts. */
    method AddMissingAlerts(specs: seq<AlertSpec>) returns (created: nat)
      requires forall a :: a in session.alerts ==> a < session.nextId
      modifies session
      ensures session.Tables() == AddAlerts(old(session.Tables()), specs)
      ensures |session.alerts| == |old(session.alerts)| + created
    {
      hide KeysOf;
      ghost var before := session.Tables();
      var keys := seq(|specs|, i requires 0 <= i < |specs| => specs[i].key);
      var existing := ExistingKeys(keys);
      forall i | 0 <= i < |specs|
        ensures specs[i].key in existing <==> specs[i].key in KeysOf(session.alerts)
      {
        assert keys[i] in keys;
      }
      created := 0;
      for k := 0 to |specs|
        invariant session.Tables() == AddAlerts(before, specs[..k])
        invariant forall a :: a in session.alerts ==> a < session.nextId
        invariant forall i :: 0 <= i < |specs| ==> (specs[i].key in existing <==> specs[i].key in KeysOf(session.alerts))
        invariant |session.alerts| == |before.alerts| + created
      {
        assert specs[..k + 1][..k] == specs[..k];
        if specs[k].key !in existing {
          KeysAfterAdding(session.Tables(), specs[k]);
          session.alerts := session.alerts[session.nextId := Alert(specs[k], AlertScheduled, 1, None, None, None)];
          session.nextId := session.nextId + 1;
          existing := existing + {specs[k].key};
          created := created + 1;
        }
      }
      assert specs[..|specs|] == specs;
    }

    /** `run_cycle`: either every phase ran, on the queries `rows` records, or an exception left the
        tables for the caller to roll back. */
    method RunCycle(call: CycleCall, locks: Locks)
      returns (r: Result<AutomationResult, Error>, ghost rows: CycleRows, ghost trace: CycleTrace)
      requires Valid() && Inv(session.Tables())
      modifies session
      ensures r.Success? ==>
                && CycleRuns(old(session.Tables()), call, locks, rows, trace)
                && session.Tables() == trace.activated
                && |trace.cancelled.alerts| <= |trace.scheduled.alerts|
                && r.value == trace.Totals(rows)
      ensures r.Failure? ==>
                if !call.HorizonValid() then r.error == BadHorizon
                else SomeExpansionFails(old(session.Tables()), call.WindowStart(), call.HorizonEnd(), r.error)
    {
      hide Inv, MaterializeAll, CancelAll, AddAlerts, ReadyAll, ObligationSpecs, InstanceSpecs, CancelQuery, ScheduleQuery, DueQuery;
      ghost var before := session.Tables();
      rows := CycleRows([], [], [], [], []);
      trace := CycleTrace(before, before, before, before, 0);
      if call.horizonDays < 1 || call.lookbackDays < 0 || call.horizonDays + call.lookbackDays > 366 {
        return Failure(BadHorizon), rows, trace;
      }
      var materialized;
      ghost var recurringRows;
      materialized, recurringRows := MaterializeRecurring(call.WindowStart(), call.HorizonEnd(), call.actor);
      if materialized.Failure? {
        return Failure(materialized.error), rows, trace;
      }
      MaterializeAllKeeps(before, recurringRows, call.WindowStart(), call.HorizonEnd(), call.actor);
      ghost var d1 := session.Tables();
      var cancelled;
      ghost var cancelRows;
      cancelled, cancelRows := CancelTerminalAlerts(locks.cancelling, call.actor);
      ghost var d2 := session.Tables();
      CancelQueryKeeps(d1, cancelRows, locks.cancelling, call.actor);
      var scheduled;
      ghost var obligationRows, instanceRows;
      scheduled, obligationRows, instanceRows := ScheduleAlerts(call.HorizonEnd());
      ghost var d3 := session.Tables();
      var ready;
      ghost var dueRows;
      ready, dueRows := ActivateDueAlerts(call.now, locks.activating, call.actor);
      rows := CycleRows(recurringRows, cancelRows, obligationRows, instanceRows, dueRows);
      trace := CycleTrace(d1, d2, d3, session.Tables(), materialized.value);
      r := Success(AutomationResult(materialized.value, scheduled, ready, cancelled));
    }

    /** `acknowledge`, of an alert */
    method Acknowledge(id: Id, expected: nat, member: Id, subject: string, roles: set<Recipient>, mayManage: bool,
                       now: Time)
      returns (r: Result<Alert, Error>)
      modifies session
      ensures var spec := AcknowledgeAlert(old(session.Tables()), id, expected, member, subject, roles, mayManage, now);
              if spec.Success? then
                session.Tables() == spec.value && r == Success(spec.value.alerts[id])
              else
                r == Failure(spec.error) && session.Tables() == old(session.Tables())
    {
      if id !in session.alerts {
        return Failure(NotFound);
      }
      var alert := session.alerts[id];
      if alert.revision != expected {
        return Failure(StaleRevision(expected, alert.revision));
      }
      var ownsAlert := alert.spec.targetRole.None? && alert.spec.owner == Some(member);
      var hasTargetRole := alert.spec.targetRole.Some? && alert.spec.targetRole.value in roles;
      if !(ownsAlert || hasTargetRole || mayManage) {
        return Failure(AccessDenied);
      }
      if alert.status.AlertAcknowledged? {
        return Success(alert);
      }
      if !alert.status.AlertReady? {
        return Failure(AlertNotReady);
      }
      alert := alert.(status := AlertAcknowledged);
      alert := alert.(acknowledgedAt := Some(now), acknowledgedBy := Some(subject));
      alert := alert.(revision := alert.revision + 1);
      RecordAlertEvent(id, alert, AckRecorded, subject);
      return Success(alert);
    }
  }

  function Min(a: int, b: int): int {
    if a < b then a else b
  }

  /** The only way a cycle can fail: the rule of some recurring obligation does not expand. */
  ghost predicate SomeExpansionFails(db: Database, windowStart: Time, windowEnd: Time, error: Error) {
    exists o :: o in RecurringObligations(db)
                && Expand(db.obligations[o].recurrence.value, windowStart, windowEnd) == Failure(error)
  }

  lemma MaterializeFailsInExpansion(db: Database, id: Id, windowStart: Time, windowEnd: Time, actor: string)
    requires id in RecurringObligations(db)
    requires Materialize(db, id, windowStart, windowEnd, actor).Failure?
    ensures Expand(db.obligations[id].recurrence.value, windowStart, windowEnd)
              == Failure(Materialize(db, id, windowStart, windowEnd, actor).error)
  {
  }

  /** `rows` is `obligations` without the rows that do not recur, in the same order. */
  ghost predicate SkipNonRecurring(db: Database, obligations: seq<Id>, rows: seq<Id>) {
    && (NoDuplicates(obligations) ==> NoDuplicates(rows))
    && (forall x :: x in rows <==> x in obligations && x in db.obligations && db.obligations[x].recurrence.Some?)
  }

  /** `rows` is `obligations` without the rows that recur, in the same order. */
  ghost predicate SkipRecurring(db: Database, obligations: seq<Id>, rows: seq<Id>) {
    && (NoDuplicates(obligations) ==> NoDuplicates(rows))
    && (forall x :: x in rows <==> x in obligations && x in db.obligations && db.obligations[x].recurrence.None?)
    && (forall i :: 0 <= i < |rows| ==> rows[i] in db.obligations && db.obligations[rows[i]].dueAt.Some?)
  }

  lemma TimesUnique(db: Database)
    requires Inv(db)
    ensures OnePerTime(db.instances)
  {
  }

  lemma StoredPolicyCanonical(db: Database, id: Id)
    requires Inv(db) && id in db.obligations
    ensures Canonical(db.obligations[id].policy)
  {
  }

  lemma StoredSnapshotCanonical(db: Database, id: Id)
    requires Inv(db) && id in db.instances
    ensures Canonical(db.instances[id].policy)
  {
  }

  lemma KeysAfterAdding(db: Database, spec: AlertSpec)
    requires forall a :: a in db.alerts ==> a < db.nextId
    ensures KeysOf(AddAlert(db, spec).alerts) == KeysOf(db.alerts) + {spec.key}
  {
    var d := AddAlert(db, spec);
    assert d.alerts[db.nextId].spec.key == spec.key;
    forall k
      ensures k in KeysOf(d.alerts) <==> k in KeysOf(db.alerts) + {spec.key}
    {
      if k in KeysOf(db.alerts) {
        var a :| a in db.alerts && db.alerts[a].spec.key == k;
        assert d.alerts[a].spec.key == k;
      }
    }
  }

  lemma CancelQueryKeeps(db: Database, rows: seq<Id>, lockedRows: set<Id>, actor: string)
    requires Inv(db)
    requires CancelQuery(db, rows, lockedRows)
    requires forall i :: 0 <= i < |rows| ==> rows[i] in db.alerts
    ensures Inv(CancelAll(db, rows, actor))
  {
    hide Inv, CancelAll;
    forall i | 0 <= i < |rows|
      ensures rows[i] in CancellableAlerts(db)
    {
      assert rows[i] in rows;
    }
    CancelAllKeeps(db, rows, actor);
  }
}
