/** When alerts are due and to whom they go, field by field, and that none is sent too early. */
module AlertTimes {
  import opened Common
  import opened EscalationPolicy
  import opened Tables
  import opened Workflow
  import opened Occurrences
  import opened Alerts
  import opened EventLog
  import opened Invariants
  import opened CyclePhases
  import opened Runs
  import opened Evolution
  import opened Convergence
  import opened WantedSpecs
  import opened OccurrenceTerms

  // The alerts of one target

  /** The role an alert names when the owner is meant: none if there is an owner, else the reviewers. */
  function OwnersRole(t: Target): Option<Recipient> {
    if t.owner == None then Some(ProcurementReviewer) else None
  }

  /** An alert about a target, at an instant, for a role, with a step of the policy or none. */
  predicate IsAlert(s: AlertSpec, t: Target, kind: AlertKind, level: nat, at: Time, role: Option<Recipient>,
                    step: Option<EscalationStep>) {
    && s.obligation == t.obligation && s.instance == t.instance
    && s.kind == kind && s.level == level && s.scheduledFor == at && s.dueAt == t.dueAt
    && s.owner == t.owner && s.ownerSubject == t.ownerSubject && s.targetRole == role && s.step == step
    && s.key.target == (if t.instance.Some? then t.instance.value else t.obligation)
    && s.key.dueAt == t.dueAt && s.key.kind == kind && s.key.level == level
    && s.sourceRevision == t.sourceRevision && s.leadTimeDays == t.leadTimeDays
  }

  /** All the alerts of a target: one when it is due, one the lead time before if there is any, and for
      the `i`-th step of its policy one of level `i + 1`, that step's days after it is due, to the
      step's own role or, where the owner is meant, to the owner or else the reviewers. */
  lemma AlertsOfTarget(t: Target, steps: seq<EscalationStep>)
    ensures var specs, own := SpecsWith(t, steps), if t.leadTimeDays > 0 then 2 else 1;
            && |specs| == own + |steps|
            && IsAlert(specs[0], t, Due, 0, t.dueAt, OwnersRole(t), None)
            && (t.leadTimeDays > 0 ==>
                  IsAlert(specs[1], t, Reminder, 0, t.dueAt - 86_400_000_000 * t.leadTimeDays, OwnersRole(t), None))
            && forall i :: 0 <= i < |steps| ==>
                 IsAlert(specs[own + i], t, Escalation, i + 1, t.dueAt + 86_400_000_000 * steps[i].afterDays,
                         if steps[i].recipient == Owner then OwnersRole(t) else Some(steps[i].recipient),
                         Some(steps[i]))
  {
  }

  // The work a cycle schedules alerts for

  /** Open work that is not repeated and is due by the end of the horizon. */
  predicate IsScheduledWork(o: Obligation, horizonEnd: Time) {
    && (o.status == Unassigned || o.status == Active || o.status == Blocked)
    && o.recurrence == None && o.dueAt.Some? && o.dueAt.value <= horizonEnd
  }

  /** An open occurrence due by then. */
  predicate IsScheduledOccurrence(i: Instance, horizonEnd: Time) {
    && (i.status == Scheduled || i.status == Unassigned || i.status == Active || i.status == Blocked)
    && i.dueAt <= horizonEnd
  }

  function TargetOfWork(id: Id, o: Obligation): Target
    requires o.dueAt.Some?
  {
    Target(id, None, o.dueAt.value, o.owner, o.ownerSubject, o.leadTimeDays, o.policy, o.revision)
  }

  function TargetOfOccurrence(id: Id, i: Instance): Target {
    Target(i.obligation, Some(id), i.dueAt, i.owner, i.ownerSubject, i.leadTimeDays, i.policy, i.sourceRevision)
  }

  /** An alert that work or an occurrence of the tables asks for, and which of its alerts it is. */
  ghost predicate IsAsked(db: Database, horizonEnd: Time, s: AlertSpec) {
    || (exists o, k: nat :: o in db.obligations && IsScheduledWork(db.obligations[o], horizonEnd)
                       && IsItsAlert(TargetOfWork(o, db.obligations[o]), s, k))
    || (exists i, k: nat :: i in db.instances && IsScheduledOccurrence(db.instances[i], horizonEnd)
                       && IsItsAlert(TargetOfOccurrence(i, db.instances[i]), s, k))
  }

  /** The due alert, the reminder, or the alert of one step of the target's policy. */
  predicate IsItsAlert(t: Target, s: AlertSpec, k: nat) {
    || (k == 0 && IsAlert(s, t, Due, 0, t.dueAt, OwnersRole(t), None))
    || (k == 1 && t.leadTimeDays > 0
        && IsAlert(s, t, Reminder, 0, t.dueAt - 86_400_000_000 * t.leadTimeDays, OwnersRole(t), None))
    || (2 <= k < |t.policy| + 2
        && var step := t.policy[k - 2];
           IsAlert(s, t, Escalation, k - 1, t.dueAt + 86_400_000_000 * step.afterDays,
                   if step.recipient == Owner then OwnersRole(t) else Some(step.recipient), Some(step)))
  }

  lemma AlertFields(s: AlertSpec, other: AlertSpec, t: Target, kind: AlertKind, level: nat, at: Time,
                    role: Option<Recipient>, step: Option<EscalationStep>)
    requires IsAlert(s, t, kind, level, at, role, step) && IsAlert(other, t, kind, level, at, role, step)
    ensures s == other
  {
  }

  lemma SpecsAreIts(t: Target, s: AlertSpec)
    ensures s in SpecsFor(t) <==> exists k: nat :: IsItsAlert(t, s, k)
  {
    hide IsAlert, SpecsWith, OwnersRole;
    AlertsOfTarget(t, t.policy);
    SpecsAre(t);
    var specs := SpecsWith(t, t.policy);
    var own := if t.leadTimeDays > 0 then 2 else 1;
    if s in SpecsFor(t) {
      var j :| 0 <= j < |specs| && specs[j] == s;
      var k := if j < own then j else j - own + 2;
      if j >= own {
        assert specs[own + (j - own)] == s;
      }
      assert IsItsAlert(t, s, k);
    }
    if k: nat :| IsItsAlert(t, s, k) {
      if k == 0 {
        AlertFields(s, specs[0], t, Due, 0, t.dueAt, OwnersRole(t), None);
      } else if k == 1 {
        AlertFields(s, specs[1], t, Reminder, 0, t.dueAt - 86_400_000_000 * t.leadTimeDays, OwnersRole(t), None);
      } else {
        var i := k - 2;
        var step := t.policy[i];
        AlertFields(s, specs[own + i], t, Escalation, i + 1, t.dueAt + 86_400_000_000 * step.afterDays,
                    if step.recipient == Owner then OwnersRole(t) else Some(step.recipient), Some(step));
      }
    }
  }

  /** What is wanted, on the fields of the rows. */
  lemma WantedIsAsked(db: Database, horizonEnd: Time, s: AlertSpec)
    ensures Wanted(db, horizonEnd, s) <==> IsAsked(db, horizonEnd, s)
  {
    hide SpecsFor, IsItsAlert, Target.Subject;
    if o :| o in ScheduledObligations(db, horizonEnd) && s in SpecsFor(ObligationTarget(o, db.obligations[o])) {
      SpecsAreIts(TargetOfWork(o, db.obligations[o]), s);
    }
    if i :| i in ScheduledInstances(db, horizonEnd) && s in SpecsFor(InstanceTarget(i, db.instances[i])) {
      SpecsAreIts(TargetOfOccurrence(i, db.instances[i]), s);
    }
    if o, k: nat :| o in db.obligations && IsScheduledWork(db.obligations[o], horizonEnd)
                    && IsItsAlert(TargetOfWork(o, db.obligations[o]), s, k) {
      SpecsAreIts(TargetOfWork(o, db.obligations[o]), s);
      assert o in ScheduledObligations(db, horizonEnd);
    }
    if i, k: nat :| i in db.instances && IsScheduledOccurrence(db.instances[i], horizonEnd)
                    && IsItsAlert(TargetOfOccurrence(i, db.instances[i]), s, k) {
      SpecsAreIts(TargetOfOccurrence(i, db.instances[i]), s);
      assert i in ScheduledInstances(db, horizonEnd);
    }
  }

  /** After a cycle every alert that open work asks for within the horizon is stored under its key. */
  lemma AskedIsStored(db: Database, call: CycleCall, rows: CycleRows, trace: CycleTrace, s: AlertSpec)
    requires FullCycle(db, call, rows, trace)
    requires IsAsked(trace.activated, call.now + 86_400_000_000 * call.horizonDays, s)
    ensures exists a :: a in trace.activated.alerts && trace.activated.alerts[a].spec.key == s.key
  {
    hide FullCycle, Wanted, IsAsked;
    HorizonIs(call);
    WantedIsAsked(trace.activated, call.HorizonEnd(), s);
    WantedAlertsExist(db, call, rows, trace, s);
  }

  lemma HorizonIs(call: CycleCall)
    ensures call.HorizonEnd() == call.now + 86_400_000_000 * call.horizonDays
    ensures call.WindowStart() == call.now - 86_400_000_000 * call.lookbackDays
    ensures call.HorizonValid() <==> call.horizonDays >= 1 && call.lookbackDays >= 0 && call.horizonDays + call.lookbackDays <= 366
  {
  }

  /** Every alert a cycle adds was asked for, and is sent if its time has come, else scheduled. */
  lemma AddedWasAsked(db: Database, call: CycleCall, rows: CycleRows, trace: CycleTrace, a: Id)
    requires FullCycle(db, call, rows, trace) && a in trace.activated.alerts && a !in db.alerts
    ensures IsAsked(trace.activated, call.now + 86_400_000_000 * call.horizonDays, trace.activated.alerts[a].spec)
    ensures trace.activated.alerts[a].status ==
              if trace.activated.alerts[a].spec.scheduledFor <= call.now then AlertReady else AlertScheduled
  {
    hide FullCycle, Wanted, IsAsked;
    HorizonIs(call);
    NewAlertFate(db, call, rows, trace, a);
    WantedIsAsked(trace.activated, call.HorizonEnd(), trace.activated.alerts[a].spec);
  }

  /** Open work with a rule and a date, for which a cycle generates occurrences. */
  predicate IsRepeatedWork(o: Obligation) {
    && (o.status == Unassigned || o.status == Active || o.status == Blocked)
    && o.recurrence.Some? && o.dueAt.Some?
  }

  /** A cycle leaves an occurrence at every instant of the rule of every repeated work, from the lookback
      to the horizon. */
  lemma CycleOccurrences(db: Database, call: CycleCall, locks: Locks, rows: CycleRows, trace: CycleTrace, o: Id,
                         t: Time)
    requires Inv(db) && CycleRuns(db, call, locks, rows, trace)
    requires o in db.obligations && IsRepeatedWork(db.obligations[o])
    requires call.now - 86_400_000_000 * call.lookbackDays <= t <= call.now + 86_400_000_000 * call.horizonDays
    requires db.obligations[o].recurrence.value.occurs(t)
    ensures exists i :: i in trace.activated.instances && trace.activated.instances[i].obligation == o
                        && trace.activated.instances[i].scheduledFor == t
  {
    hide Inv, CycleRuns, Between;
    HorizonIs(call);
    assert o in RecurringObligations(db);
    MaterializePhaseFacts(db, call, locks, rows, trace);
    CancelPhaseFacts(db, call, locks, rows, trace);
    SchedulePhaseFacts(db, call, locks, rows, trace);
    ReadyPhaseFacts(db, call, locks, rows, trace);
    assert t in Between(db.obligations[o].recurrence.value.occurs, call.WindowStart(), call.HorizonEnd());
    assert IsScheduledAt(trace.materialized, o, t);
  }

  /** What a cycle does to an alert stored before it, on the fields of the rows: it is cancelled if it is
      scheduled or ready and its obligation or its own occurrence is completed, waived or superseded,
      and otherwise sent if it is scheduled for now or earlier. */
  lemma StoredAlertFate(db: Database, call: CycleCall, locks: Locks, rows: CycleRows, trace: CycleTrace, a: Id)
    requires Inv(db) && CycleRuns(db, call, locks, rows, trace) && a in db.alerts
    ensures a in trace.activated.alerts
    ensures var alert, alert' := db.alerts[a], trace.activated.alerts[a];
            var pending := alert.status == AlertScheduled || alert.status == AlertReady;
            if pending && HasEnded(trace.activated, alert.spec) && a !in locks.cancelling then
              alert' == alert.(status := AlertStatus.AlertCancelled, revision := alert.revision + 1)
            else if alert.status == AlertScheduled && alert.spec.scheduledFor <= call.now && a !in locks.activating then
              alert' == alert.(status := AlertReady, readyAt := Some(call.now), revision := alert.revision + 1)
            else alert' == alert
  {
    hide Inv, CycleRuns;
    LockedAlertFate(db, call, locks, rows, trace, a);
  }

  /** The obligation an alert is about, or its own occurrence, is completed, waived or superseded. */
  predicate HasEnded(db: Database, s: AlertSpec) {
    || (s.obligation in db.obligations
        && db.obligations[s.obligation].status in {Completed, Waived, Superseded})
    || (s.instance.Some? && s.instance.value in db.instances
        && db.instances[s.instance.value].status in {Completed, Waived, Superseded})
  }

  /** The stored alerts a cycle may cancel: pending, about ended work, and free. */
  function ToCancel(db: Database, locked: set<Id>): set<Id> {
    set a | a in db.alerts && a !in locked && HasEnded(db, db.alerts[a].spec)
            && (db.alerts[a].status == AlertScheduled || db.alerts[a].status == AlertReady)
  }

  lemma {:induction false} CreatedCount(db: Database, rows: seq<Id>, windowStart: Time, windowEnd: Time, actor: string)
    requires forall i :: i in db.instances ==> i < db.nextId
    requires MaterializeAll(db, rows, windowStart, windowEnd, actor).Success?
    ensures var (d, created) := MaterializeAll(db, rows, windowStart, windowEnd, actor).value;
            && d.instances.Keys >= db.instances.Keys && |d.instances| == |db.instances| + created
            && forall i :: i in d.instances ==> i < d.nextId
  {
    hide Materialize;
    if rows != [] {
      var n := |rows| - 1;
      CreatedCount(db, rows[..n], windowStart, windowEnd, actor);
      var before := MaterializeAll(db, rows[..n], windowStart, windowEnd, actor).value.0;
      NewOccurrences(before, rows[n], windowStart, windowEnd, actor);
      var (d, created) := Materialize(before, rows[n], windowStart, windowEnd, actor).value;
      AppendedCount(before, d, created, actor);
    }
  }

  lemma AppendedCount(db: Database, d: Database, created: seq<Id>, actor: string)
    requires Appends(db, d, created, actor) && forall i :: i in db.instances ==> i < db.nextId
    ensures d.instances.Keys >= db.instances.Keys && |d.instances| == |db.instances| + |created|
    ensures forall i :: i in d.instances ==> i < d.nextId
  {
    hide Appends;
    AppendedKeys(db, d, created, actor);
    MoreMembers(db.instances.Keys, d.instances.Keys, created);
    SizeOfKeys(db.instances);
    SizeOfKeys(d.instances);
  }

  lemma AppendedKeys(db: Database, d: Database, created: seq<Id>, actor: string)
    requires Appends(db, d, created, actor) && forall i :: i in db.instances ==> i < db.nextId
    ensures forall i :: i in d.instances.Keys <==> i in db.instances.Keys || i in created
    ensures NoDuplicates(created) && forall i :: i in created ==> i !in db.instances.Keys
    ensures forall i :: i in d.instances ==> i < d.nextId
  {
    forall i | db.nextId <= i < d.nextId
      ensures i in created
    {
      assert created[i - db.nextId] == i;
    }
  }

  lemma SizeOfKeys<T>(m: map<Id, T>)
    ensures |m| == |m.Keys|
  {
  }

  lemma MoreMembers(a: set<Id>, b: set<Id>, more: seq<Id>)
    requires NoDuplicates(more) && (forall i :: i in more ==> i !in a) && forall i :: i in b <==> i in a || i in more
    ensures b >= a && |b| == |a| + |more|
  {
    var added := set i | i in more;
    ListsLength(more, added);
    assert b == a + added && a !! added;
  }

  /** What a cycle reports: the occurrences and alerts it added, the messages it sent, and the alerts it
      cancelled. */
  lemma CycleTotals(db: Database, call: CycleCall, locks: Locks, rows: CycleRows, trace: CycleTrace)
    requires Inv(db) && CycleRuns(db, call, locks, rows, trace)
    requires |trace.cancelled.alerts| <= |trace.scheduled.alerts|
    ensures var db', totals := trace.activated, trace.Totals(rows);
            && totals.materialized == |db'.instances| - |db.instances|
            && totals.scheduled == |db'.alerts| - |db.alerts|
            && totals.ready == |db'.outbox| - |db.outbox|
            && totals.cancelled == |ToCancel(trace.materialized, locks.cancelling)|
  {
    hide Inv, MaterializeAll, CancelAll, AddAlerts, ReadyAll, ObligationSpecs, InstanceSpecs, ScheduleQuery, IsCancellable;
    Counters(db);
    CreatedCount(db, rows.recurring, call.WindowStart(), call.HorizonEnd(), call.actor);
    MaterializePhaseFacts(db, call, locks, rows, trace);
    CancelPhaseFacts(db, call, locks, rows, trace);
    SchedulePhaseFacts(db, call, locks, rows, trace);
    ReadyPhaseFacts(db, call, locks, rows, trace);
    OutboxOfCycle(db, call, locks, rows, trace);
    SameCounts(db, trace);
    CancelCount(trace.materialized, rows.cancellable, locks.cancelling);
  }

  lemma SameCounts(db: Database, trace: CycleTrace)
    requires trace.materialized.alerts == db.alerts
    requires trace.cancelled.alerts.Keys == trace.materialized.alerts.Keys
    requires trace.activated.alerts.Keys == trace.scheduled.alerts.Keys
    requires trace.activated.instances == trace.materialized.instances
    ensures |trace.cancelled.alerts| == |db.alerts| && |trace.activated.alerts| == |trace.scheduled.alerts|
    ensures |trace.activated.instances| == |trace.materialized.instances|
  {
    assert |trace.cancelled.alerts| == |trace.cancelled.alerts.Keys| == |trace.materialized.alerts.Keys| == |db.alerts|;
    assert |trace.activated.alerts| == |trace.activated.alerts.Keys| == |trace.scheduled.alerts.Keys|;
  }

  lemma CancelCount(db: Database, rows: seq<Id>, locked: set<Id>)
    requires CancelQuery(db, rows, locked)
    ensures |rows| == |ToCancel(db, locked)|
  {
    assert CancellableAlerts(db) - locked == ToCancel(db, locked);
    ListsLength(rows, ToCancel(db, locked));
  }

  lemma OutboxOfCycle(db: Database, call: CycleCall, locks: Locks, rows: CycleRows, trace: CycleTrace)
    requires Inv(db) && CycleRuns(db, call, locks, rows, trace)
    ensures |trace.activated.outbox| == |db.outbox| + |rows.due|
    ensures trace.activated.instances == trace.materialized.instances
    ensures trace.activated.alerts.Keys == trace.scheduled.alerts.Keys
    ensures trace.cancelled.alerts.Keys == trace.materialized.alerts.Keys
  {
    hide Inv, MaterializeAll, CancelAll, AddAlerts, ReadyAll, ObligationSpecs, InstanceSpecs, ScheduleQuery;
    Counters(db);
    MaterializeAllRows(db, rows.recurring, call.WindowStart(), call.HorizonEnd(), call.actor);
    CancelAllRows(trace.materialized, rows.cancellable, call.actor);
    CycleKeepsCancelled(db, call, locks, rows, trace);
    Counters(trace.cancelled);
    AddAlertsRows(trace.cancelled, ObligationSpecs(trace.cancelled, rows.obligations) + InstanceSpecs(trace.cancelled, rows.instances));
    ReadyAllRows(trace.scheduled, rows.due, call.now, call.actor);
  }

  // Never too early

  /** The time an alert is scheduled for is its kind's distance from the due time. */
  predicate IsTimed(s: AlertSpec) {
    match s.kind
    case Due => s.scheduledFor == s.dueAt
    case Reminder => s.scheduledFor == s.dueAt - 86_400_000_000 * s.leadTimeDays
    case Escalation => s.step.Some? && s.scheduledFor == s.dueAt + 86_400_000_000 * s.step.value.afterDays
  }

  predicate IsTimely(a: Alert) {
    IsTimed(a.spec) && (a.readyAt.Some? ==> a.readyAt.value >= a.spec.scheduledFor)
  }

  ghost predicate AllTimely(alerts: map<Id, Alert>) {
    forall a :: a in alerts ==> IsTimely(alerts[a])
  }

  lemma AskedIsTimed(db: Database, horizonEnd: Time, s: AlertSpec)
    requires Wanted(db, horizonEnd, s)
    ensures IsTimed(s)
  {
    hide Wanted;
    WantedIsAsked(db, horizonEnd, s);
  }

  lemma CycleTimely(db: Database, call: CycleCall, locks: Locks, rows: CycleRows, trace: CycleTrace)
    requires Inv(db) && CycleRuns(db, call, locks, rows, trace) && AllTimely(db.alerts)
    ensures AllTimely(trace.activated.alerts)
  {
    hide Inv, CycleRuns, Wanted, IsTimed;
    MaterializePhaseFacts(db, call, locks, rows, trace);
    CancelPhaseFacts(db, call, locks, rows, trace);
    SchedulePhaseFacts(db, call, locks, rows, trace);
    ReadyPhaseFacts(db, call, locks, rows, trace);
    CycleKeepsScheduled(db, call, locks, rows, trace);
    forall a | a in trace.activated.alerts
      ensures IsTimely(trace.activated.alerts[a])
    {
      assert a in trace.scheduled.alerts;
      if a !in trace.cancelled.alerts {
        AskedIsTimed(trace.cancelled, call.HorizonEnd(), trace.scheduled.alerts[a].spec);
        ScheduledNotReady(trace.scheduled, a);
      }
    }
  }

  lemma ScheduledNotReady(db: Database, a: Id)
    requires Inv(db) && a in db.alerts && db.alerts[a].status.AlertScheduled?
    ensures db.alerts[a].readyAt == None
  {
    hide ObligationOk, InstanceOk, EvidenceOk, OnePerFact, OnePerTime, OnePerHash, OnePerKey, CompletedEvidenced;
    hide ObligationLog, InstanceLog, AlertLog, InstanceAlertLog, Delivered, SpecOk;
    assert AlertOk(db.alerts[a]);
  }

  /** Only cycles and acknowledgements touch alerts. */
  lemma SameAlerts(db: Database, c: Command, db': Database)
    requires Inv(db) && Next(db, c, db') && !c.RunCycle? && !c.AcknowledgeAlertOf?
    ensures db'.alerts == db.alerts
  {
    hide Inv, Materialize, ValidateCompletion, RequiresIndependence, Acceptable, CanonicalOf;
    if c.Generate? {
      Counters(db);
      if Materialize(db, c.id, c.windowStart, c.windowEnd, c.actor).Success? {
        MaterializeNewAmong(db, c.id, c.windowStart, c.windowEnd, c.actor);
      }
    }
  }

  lemma AcknowledgeTimely(db: Database, id: Id, expected: nat, member: Id, subject: string, roles: set<Recipient>,
                          mayManage: bool, now: Time)
    requires AllTimely(db.alerts)
    ensures var r := AcknowledgeAlert(db, id, expected, member, subject, roles, mayManage, now);
            r.Success? ==> AllTimely(r.value.alerts)
  {
    hide IsTimed;
  }

  lemma NextTimely(db: Database, c: Command, db': Database)
    requires Inv(db) && Next(db, c, db') && AllTimely(db.alerts)
    ensures AllTimely(db'.alerts)
  {
    hide Inv, CycleRuns, AllTimely, AcknowledgeAlert, Materialize, Transition, Assign, CreateFromFact, SubmitEvidence;
    hide ReviewEvidence, TransitionInstance, Workflow.Acknowledge;
    match c
    case RunCycle(call, locks, rows, trace) => CycleTimely(db, call, locks, rows, trace);
    case AcknowledgeAlertOf(id, expected, member, subject, roles, mayManage, now) =>
      AcknowledgeTimely(db, id, expected, member, subject, roles, mayManage, now);
    case _ => SameAlerts(db, c, db');
  }

  lemma NothingEarly()
    ensures AllTimely(EmptyDatabase.alerts)
  {
  }

  lemma {:induction false} RunTimely(states: seq<Database>, commands: seq<Command>, n: nat)
    requires IsRun(states, commands) && n < |states|
    ensures AllTimely(states[n].alerts)
  {
    hide Next, Inv, AllTimely;
    if n == 0 {
      NothingEarly();
    } else {
      RunTimely(states, commands, n - 1);
      RunInv(states, commands, n - 1);
      NextTimely(states[n - 1], commands[n - 1], states[n]);
    }
  }

  /** In every reachable state no alert is ready before its time: an escalation not before its work was
      due and its step's days have passed since, a due alert not before the due time, and a reminder not
      before the lead time begins. */
  lemma NeverEarly(states: seq<Database>, commands: seq<Command>, n: nat, a: Id)
    requires IsRun(states, commands) && n < |states| && a in states[n].alerts
    requires states[n].alerts[a].status == AlertReady || states[n].alerts[a].readyAt.Some?
    ensures var alert := states[n].alerts[a];
            var s := alert.spec;
            && alert.readyAt.Some?
            && (s.kind == Due ==> alert.readyAt.value >= s.dueAt)
            && (s.kind == Reminder ==> alert.readyAt.value >= s.dueAt - 86_400_000_000 * s.leadTimeDays)
            && (s.kind == Escalation ==>
                  s.step.Some? && alert.readyAt.value >= s.dueAt + 86_400_000_000 * s.step.value.afterDays)
  {
    hide IsRun, Inv;
    RunTimely(states, commands, n);
    RunInv(states, commands, n);
    if states[n].alerts[a].status == AlertReady {
      ReadyHasTime(states[n], a);
    }
  }

  lemma ReadyHasTime(db: Database, a: Id)
    requires Inv(db) && a in db.alerts && db.alerts[a].status.AlertReady?
    ensures db.alerts[a].readyAt.Some?
  {
    hide ObligationOk, InstanceOk, EvidenceOk, OnePerFact, OnePerTime, OnePerHash, OnePerKey, CompletedEvidenced;
    hide ObligationLog, InstanceLog, AlertLog, InstanceAlertLog, Delivered, SpecOk;
    assert AlertOk(db.alerts[a]);
  }

  // What the log says of an alert

  /** The event a delivery of this kind is logged as. */
  function SentAs(kind: AlertKind): AlertStep {
    if kind == Reminder then ReminderSent else if kind == Due then DueSent else EscalationSent
  }

  /** In every reachable state the log tells each alert's life: nothing while it is scheduled; then that it
      was sent, as its kind, and acknowledged; or that it was cancelled, before or after it was sent. */
  lemma AlertLogSays(states: seq<Database>, commands: seq<Command>, n: nat, a: Id)
    requires IsRun(states, commands) && n < |states| && a in states[n].alerts
    ensures var alert := states[n].alerts[a];
            var sent := if alert.readyAt.Some? then [SentAs(alert.spec.kind)] else [];
            AlertSteps(states[n].events, a) == match alert.status
              case AlertScheduled => []
              case AlertReady => sent
              case AlertAcknowledged => sent + [AckRecorded]
              case AlertCancelled => sent + [CancelRecorded]
  {
    hide IsRun, Inv;
    RunInv(states, commands, n);
    LogOfAlert(states[n], a);
  }

  lemma LogOfAlert(db: Database, a: Id)
    requires Inv(db) && a in db.alerts
    ensures AlertSteps(db.events, a) == HistoryOf(db.alerts[a])
    ensures db.alerts[a].status.AlertScheduled? ==> db.alerts[a].readyAt.None?
    ensures db.alerts[a].status.AlertReady? || db.alerts[a].status.AlertAcknowledged? ==> db.alerts[a].readyAt.Some?
  {
    hide ObligationOk, InstanceOk, EvidenceOk, OnePerFact, OnePerTime, OnePerHash, OnePerKey, CompletedEvidenced;
    hide ObligationLog, InstanceLog, InstanceAlertLog, Delivered, SpecOk, HistoryOf;
    assert AlertOk(db.alerts[a]);
  }
}
