/** The alert scheduler: what a target's alerts are, and what each phase of a cycle does. */
module Alerts {
  import opened Common
  import opened EscalationPolicy
  import opened Tables
  import opened Occurrences

  /** The role alerted when nobody owns the work. */
  const DEFAULT_ROLE := ProcurementReviewer

  /** What an alert is about: an obligation or an occurrence, with the terms that apply to it. */
  datatype Target = Target(
    obligation: Id,
    instance: Option<Id>,
    dueAt: Time,
    owner: Option<Id>,
    ownerSubject: Option<string>,
    leadTimeDays: nat,
    policy: seq<EscalationStep>,
    sourceRevision: nat)
  {
    function Subject(): Id {
      if instance.Some? then instance.value else obligation
    }
  }

  function SpecOf(t: Target, kind: AlertKind, level: nat, scheduledFor: Time,
                  targetRole: Option<Recipient>, step: Option<EscalationStep>): AlertSpec
  {
    AlertSpec(t.obligation, t.instance, kind, level, scheduledFor, t.dueAt, t.owner, t.ownerSubject,
              targetRole, AlertKey(t.Subject(), t.dueAt, kind, level), t.sourceRevision, t.leadTimeDays, step)
  }

  /** Who is alerted when a step names `r`; nobody by role when the owner is meant and known. */
  function RoleFor(t: Target, r: Recipient): Option<Recipient> {
    if !r.Owner? then Some(r)
    else if t.owner.Some? then None
    else Some(DEFAULT_ROLE)
  }

  function EscalationSpec(t: Target, steps: seq<EscalationStep>, i: nat): AlertSpec
    requires i < |steps|
  {
    SpecOf(t, Escalation, i + 1, t.dueAt + steps[i].afterDays * DAY, RoleFor(t, steps[i].recipient), Some(steps[i]))
  }

  function EscalationSpecs(t: Target, steps: seq<EscalationStep>): (r: seq<AlertSpec>)
    ensures |r| == |steps|
    ensures forall i :: 0 <= i < |steps| ==> r[i] == EscalationSpec(t, steps, i)
  {
    seq(|steps|, i requires 0 <= i < |steps| => EscalationSpec(t, steps, i))
  }

  /** The due alert, and the reminder when there is a lead time. */
  function OwnSpecs(t: Target): seq<AlertSpec> {
    [SpecOf(t, Due, 0, t.dueAt, RoleFor(t, Owner), None)]
    + if t.leadTimeDays > 0 then
        [SpecOf(t, Reminder, 0, t.dueAt - t.leadTimeDays * DAY, RoleFor(t, Owner), None)]
      else []
  }

  /** The alerts of a target under a normalized policy. */
  function SpecsWith(t: Target, steps: seq<EscalationStep>): seq<AlertSpec> {
    OwnSpecs(t) + EscalationSpecs(t, steps)
  }

  /** The alerts of a target; its stored policy is already normalized. */
  function SpecsFor(t: Target): seq<AlertSpec> {
    SpecsWith(t, t.policy)
  }

  function ObligationTarget(id: Id, o: Obligation): Target
    requires o.dueAt.Some?
  {
    Target(id, None, o.dueAt.value, o.owner, o.ownerSubject, o.leadTimeDays, o.policy, o.revision)
  }

  function InstanceTarget(id: Id, i: Instance): Target {
    Target(i.obligation, Some(id), i.dueAt, i.owner, i.ownerSubject, i.leadTimeDays, i.policy, i.sourceRevision)
  }

  // What each query of a cycle selects

  predicate IsRecurring(o: Obligation) {
    IsOpen(o.status) && o.dueAt.Some? && o.recurrence.Some?
  }

  predicate IsDueByObligation(o: Obligation, horizonEnd: Time) {
    IsOpen(o.status) && o.dueAt.Some? && o.dueAt.value <= horizonEnd && o.recurrence.None?
  }

  predicate IsDueByInstance(i: Instance, horizonEnd: Time) {
    IsOpenInstance(i.status) && i.dueAt <= horizonEnd
  }

  function RecurringObligations(db: Database): set<Id> {
    set o | o in db.obligations && IsRecurring(db.obligations[o])
  }

  function ScheduledObligations(db: Database, horizonEnd: Time): set<Id> {
    set o | o in db.obligations && IsDueByObligation(db.obligations[o], horizonEnd)
  }

  function ScheduledInstances(db: Database, horizonEnd: Time): set<Id> {
    set i | i in db.instances && IsDueByInstance(db.instances[i], horizonEnd)
  }

  /** Whether the work an alert is about has ended: its obligation, or its own occurrence. */
  predicate WorkEnded(db: Database, a: AlertSpec) {
    || (a.obligation in db.obligations && IsTerminal(db.obligations[a.obligation].status))
    || (a.instance.Some? && a.instance.value in db.instances && IsTerminal(db.instances[a.instance.value].status))
  }

  predicate IsCancellable(db: Database, a: Alert) {
    (a.status.AlertScheduled? || a.status.AlertReady?) && WorkEnded(db, a.spec)
  }

  function CancellableAlerts(db: Database): set<Id> {
    set a | a in db.alerts && IsCancellable(db, db.alerts[a])
  }

  predicate IsDue(a: Alert, now: Time) {
    a.status.AlertScheduled? && a.spec.scheduledFor <= now
  }

  function DueAlerts(db: Database, now: Time): set<Id> {
    set a | a in db.alerts && IsDue(db.alerts[a], now)
  }

  // What each phase does to the rows its query returned

  function Cancelled(a: Alert): Alert {
    a.(status := AlertStatus.AlertCancelled, revision := a.revision + 1)
  }

  function Readied(a: Alert, now: Time): Alert {
    a.(status := AlertReady, readyAt := Some(now), revision := a.revision + 1)
  }

  function SentStep(kind: AlertKind): AlertStep {
    match kind
    case Reminder => ReminderSent
    case Due => DueSent
    case Escalation => EscalationSent
  }

  /** `_record_alert_event`: one obligation event, and one occurrence event when there is one. */
  function RecordAlert(db: Database, id: Id, a: Alert, step: AlertStep, actor: string): Database {
    db.(alerts := db.alerts[id := a],
        events := db.events + [ObligationEvent(a.spec.obligation, actor, None, None, AlertChanged(id, step))],
        instanceEvents := db.instanceEvents +
          if a.spec.instance.None? then []
          else [InstanceEvent(a.spec.instance.value, actor, None, None, InstanceAlertChanged(id, step))])
  }

  function CancelOne(db: Database, id: Id, actor: string): Database
    requires id in db.alerts
  {
    RecordAlert(db, id, Cancelled(db.alerts[id]), CancelRecorded, actor)
  }

  function ReadyOne(db: Database, id: Id, now: Time, actor: string): Database
    requires id in db.alerts
  {
    var a := Readied(db.alerts[id], now);
    RecordAlert(db, id, a, SentStep(a.spec.kind), actor)
      .(outbox := db.outbox + [AlertReadyEvent(id, a.spec)])
  }

  function CancelAll(db: Database, rows: seq<Id>, actor: string): (r: Database)
    requires forall i :: 0 <= i < |rows| ==> rows[i] in db.alerts
    ensures r.alerts.Keys == db.alerts.Keys
  {
    if rows == [] then db
    else CancelOne(CancelAll(db, rows[..|rows| - 1], actor), rows[|rows| - 1], actor)
  }

  function ReadyAll(db: Database, rows: seq<Id>, now: Time, actor: string): (r: Database)
    requires forall i :: 0 <= i < |rows| ==> rows[i] in db.alerts
    ensures r.alerts.Keys == db.alerts.Keys
  {
    if rows == [] then db
    else ReadyOne(ReadyAll(db, rows[..|rows| - 1], now, actor), rows[|rows| - 1], now, actor)
  }

  function KeysOf(alerts: map<Id, Alert>): set<AlertKey> {
    set a | a in alerts :: alerts[a].spec.key
  }

  function AddAlert(db: Database, spec: AlertSpec): Database {
    db.(alerts := db.alerts[db.nextId := Alert(spec, AlertScheduled, 1, None, None, None)],
        nextId := db.nextId + 1)
  }

  /** The specs whose key is not stored yet are added, in order. */
  function AddAlerts(db: Database, specs: seq<AlertSpec>): Database {
    if specs == [] then db
    else
      var before := AddAlerts(db, specs[..|specs| - 1]);
      var spec := specs[|specs| - 1];
      if spec.key in KeysOf(before.alerts) then before else AddAlert(before, spec)
  }

  /** The specs of the rows the two scheduling queries returned. */
  function ObligationSpecs(db: Database, rows: seq<Id>): seq<AlertSpec>
    requires forall i :: 0 <= i < |rows| ==> rows[i] in db.obligations && db.obligations[rows[i]].dueAt.Some?
  {
    if rows == [] then []
    else ObligationSpecs(db, rows[..|rows| - 1])
         + SpecsFor(ObligationTarget(rows[|rows| - 1], db.obligations[rows[|rows| - 1]]))
  }

  function InstanceSpecs(db: Database, rows: seq<Id>): seq<AlertSpec>
    requires forall i :: 0 <= i < |rows| ==> rows[i] in db.instances
  {
    if rows == [] then []
    else InstanceSpecs(db, rows[..|rows| - 1])
         + SpecsFor(InstanceTarget(rows[|rows| - 1], db.instances[rows[|rows| - 1]]))
  }

  /** `materialize` for each recurring obligation in turn; the first failure ends the cycle. */
  ghost function MaterializeAll(db: Database, rows: seq<Id>, windowStart: Time, windowEnd: Time, actor: string)
    : (r: Result<(Database, nat), Error>)
    ensures r.Success? ==> r.value.0.obligations == db.obligations
  {
    if rows == [] then Success((db, 0))
    else
      var before :- MaterializeAll(db, rows[..|rows| - 1], windowStart, windowEnd, actor);
      var last :- Materialize(before.0, rows[|rows| - 1], windowStart, windowEnd, actor);
      Success((last.0, before.1 + |last.1|))
  }

  // A whole cycle

  datatype CycleCall = CycleCall(now: Time, horizonDays: int, lookbackDays: int, actor: string)
  {
    function HorizonEnd(): Time { now + horizonDays * DAY }

    function WindowStart(): Time { now - lookbackDays * DAY }

    predicate HorizonValid() {
      horizonDays >= 1 && lookbackDays >= 0 && horizonDays + lookbackDays <= 366
    }
  }

  /** The alerts other transactions hold when a cycle cancels, and when it activates. */
  datatype Locks = Locks(cancelling: set<Id>, activating: set<Id>)

  const UNLOCKED := Locks({}, {})

  /** The rows each query of a cycle returned, in the order it returned them. */
  datatype CycleRows = CycleRows(
    recurring: seq<Id>, cancellable: seq<Id>, obligations: seq<Id>, instances: seq<Id>, due: seq<Id>)

  datatype AutomationResult = AutomationResult(materialized: nat, scheduled: nat, ready: nat, cancelled: nat)

  /** The tables after each phase. */
  datatype CycleTrace = CycleTrace(
    materialized: Database, cancelled: Database, scheduled: Database, activated: Database, created: nat)
  {
    function Totals(rows: CycleRows): AutomationResult
      requires |cancelled.alerts| <= |scheduled.alerts|
    {
      AutomationResult(created, |scheduled.alerts| - |cancelled.alerts|, |rows.due|, |rows.cancellable|)
    }
  }

  predicate OrderedByTime(alerts: map<Id, Alert>, rows: seq<Id>)
    requires forall i :: 0 <= i < |rows| ==> rows[i] in alerts
  {
    forall i, j :: 0 <= i < j < |rows| ==> alerts[rows[i]].spec.scheduledFor <= alerts[rows[j]].spec.scheduledFor
  }

  /** `rows` is what the cancel query may return when the alerts in `lockedRows` are held by others. */
  ghost predicate CancelQuery(db: Database, rows: seq<Id>, lockedRows: set<Id>) {
    Lists(rows, CancellableAlerts(db) - lockedRows)
  }

  ghost predicate ScheduleQuery(db: Database, horizonEnd: Time, obligations: seq<Id>, instances: seq<Id>) {
    && Lists(obligations, ScheduledObligations(db, horizonEnd))
    && Lists(instances, ScheduledInstances(db, horizonEnd))
  }

  ghost predicate DueQuery(db: Database, now: Time, rows: seq<Id>, lockedRows: set<Id>) {
    && Lists(rows, DueAlerts(db, now) - lockedRows)
    && (forall i :: 0 <= i < |rows| ==> rows[i] in db.alerts)
    && OrderedByTime(db.alerts, rows)
  }

  /** A cycle that ran to its end: every query answered from the tables as its phase found them. */
  ghost predicate CycleRuns(db: Database, call: CycleCall, locks: Locks, rows: CycleRows, trace: CycleTrace) {
    && call.HorizonValid()
    && Lists(rows.recurring, RecurringObligations(db))
    && MaterializeAll(db, rows.recurring, call.WindowStart(), call.HorizonEnd(), call.actor)
         == Success((trace.materialized, trace.created))
    && CancelQuery(trace.materialized, rows.cancellable, locks.cancelling)
    && (forall i :: 0 <= i < |rows.cancellable| ==> rows.cancellable[i] in trace.materialized.alerts)
    && trace.cancelled == CancelAll(trace.materialized, rows.cancellable, call.actor)
    && ScheduleQuery(trace.cancelled, call.HorizonEnd(), rows.obligations, rows.instances)
    && (forall i :: 0 <= i < |rows.obligations| ==>
          rows.obligations[i] in trace.cancelled.obligations && trace.cancelled.obligations[rows.obligations[i]].dueAt.Some?)
    && (forall i :: 0 <= i < |rows.instances| ==> rows.instances[i] in trace.cancelled.instances)
    && trace.scheduled == AddAlerts(trace.cancelled,
         ObligationSpecs(trace.cancelled, rows.obligations) + InstanceSpecs(trace.cancelled, rows.instances))
    && DueQuery(trace.scheduled, call.now, rows.due, locks.activating)
    && trace.activated == ReadyAll(trace.scheduled, rows.due, call.now, call.actor)
  }

  /** `acknowledge`, of an alert */
  function AcknowledgeAlert(db: Database, id: Id, expected: nat, member: Id, subject: string,
                            roles: set<Recipient>, mayManage: bool, now: Time): Result<Database, Error>
  {
    if id !in db.alerts then Failure(NotFound)
    else
      var a := db.alerts[id];
      if a.revision != expected then Failure(StaleRevision(expected, a.revision))
      else if !(|| (a.spec.targetRole.None? && a.spec.owner == Some(member))
                || (a.spec.targetRole.Some? && a.spec.targetRole.value in roles)
                || mayManage) then Failure(AccessDenied)
      else if a.status.AlertAcknowledged? then Success(db)
      else if !a.status.AlertReady? then Failure(AlertNotReady)
      else
        var a' := a.(status := AlertAcknowledged, acknowledgedAt := Some(now),
                     acknowledgedBy := Some(subject), revision := a.revision + 1);
        Success(RecordAlert(db, id, a', AckRecorded, subject))
  }
}
