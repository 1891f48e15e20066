/** Reading the append-only logs back: what they say each row is. */
module EventLog {
  import opened Common
  import opened Tables
  import opened Workflow
  import opened Alerts

  /** The operational state an obligation's events determine. */
  datatype Projection = Projection(status: Status, owner: Option<Id>, acknowledged: bool, revision: nat)

  datatype Replayed = Unborn | Live(p: Projection) | Broken

  function ProjectionOf(o: Obligation): Projection {
    Projection(o.status, o.owner, o.acknowledgedAt.Some?, o.revision)
  }

  /** One event applied; `Broken` unless it continues the row where the last one left it. */
  function Apply(r: Replayed, e: ObligationEvent): Replayed {
    match e.change
    case Created(owner) =>
      if r.Unborn? && e.from.None? && e.to == Some(if owner.Some? then Active else Unassigned)
      then Live(Projection(e.to.value, owner, false, 1)) else Broken
    case AlertChanged(_, _) =>
      if r.Live? && e.from.None? && e.to.None? then r else Broken
    case _ =>
      if r.Live? && e.from == Some(r.p.status) && e.to.Some? then ApplyChange(r.p, e.to.value, e.change)
      else Broken
  }

  function ApplyChange(p: Projection, to: Status, change: Change): Replayed {
    match change
    case OwnerSet(previous, owner, revision) =>
      if previous == p.owner && revision == p.revision + 1 && !IsTerminal(p.status)
         && to == (if owner.Some? then Active else Unassigned)
      then Live(Projection(to, owner, false, revision)) else Broken
    case Acknowledged(revision) =>
      if revision == p.revision + 1 && to == p.status && to.Active? && !p.acknowledged && p.owner.Some?
      then Live(p.(acknowledged := true, revision := revision)) else Broken
    case StatusChanged(revision) =>
      if revision == p.revision + 1 && to in Transitions(p.status) && (p.status.Active? || p.status.Blocked?)
      then Live(p.(status := to, revision := revision)) else Broken
    case Reopened(revision) =>
      if revision == p.revision + 1 && to in Transitions(p.status) && (p.status.Completed? || p.status.Waived?)
      then Live(p.(status := to, revision := revision)) else Broken
    case EvidenceSubmitted(_, revision) =>
      if revision == p.revision + 1 && to == p.status then Live(p.(revision := revision)) else Broken
    case EvidenceDecided(_, decision, revision) =>
      if revision == p.revision + 1 && to == p.status && !decision.Pending? then Live(p.(revision := revision)) else Broken
    case InstancesMaterialized(ids) =>
      if to == p.status && ids != [] then Live(p) else Broken
    case _ => Broken
  }

  function Replay(log: seq<ObligationEvent>, id: Id): Replayed {
    if log == [] then Unborn
    else
      var r := Replay(log[..|log| - 1], id);
      var e := log[|log| - 1];
      if e.obligation == id then Apply(r, e) else r
  }

  datatype InstanceProjection = InstanceProjection(status: Status, revision: nat)

  datatype InstanceReplayed = NotGenerated | Running(p: InstanceProjection) | Inconsistent

  function InstanceProjectionOf(i: Instance): InstanceProjection {
    InstanceProjection(i.status, i.revision)
  }

  function ApplyInstance(r: InstanceReplayed, e: InstanceEvent): InstanceReplayed {
    match e.change
    case Generated(_, _) =>
      if r.NotGenerated? && e.from.None? && e.to == Some(Scheduled)
      then Running(InstanceProjection(Scheduled, 1)) else Inconsistent
    case InstanceAlertChanged(_, _) =>
      if r.Running? && e.from.None? && e.to.None? then r else Inconsistent
    case InstanceStatusChanged(revision) =>
      if r.Running? && e.from == Some(r.p.status) && e.to.Some? && e.to.value in InstanceTransitions(r.p.status)
         && revision == r.p.revision + 1 && !r.p.status.Completed? && !r.p.status.Waived?
      then Running(InstanceProjection(e.to.value, revision)) else Inconsistent
    case InstanceReopened(revision) =>
      if r.Running? && e.from == Some(r.p.status) && e.to.Some? && e.to.value in InstanceTransitions(r.p.status)
         && revision == r.p.revision + 1 && (r.p.status.Completed? || r.p.status.Waived?)
      then Running(InstanceProjection(e.to.value, revision)) else Inconsistent
  }

  function ReplayInstance(log: seq<InstanceEvent>, id: Id): InstanceReplayed {
    if log == [] then NotGenerated
    else
      var r := ReplayInstance(log[..|log| - 1], id);
      var e := log[|log| - 1];
      if e.instance == id then ApplyInstance(r, e) else r
  }

  // Alerts in the logs and in the outbox

  function StepIf(e: ObligationEvent, alert: Id): seq<AlertStep> {
    if e.change.AlertChanged? && e.change.alert == alert then [e.change.step] else []
  }

  /** The steps the obligation log records for one alert, in order. */
  function AlertSteps(log: seq<ObligationEvent>, alert: Id): seq<AlertStep> {
    if log == [] then []
    else AlertSteps(log[..|log| - 1], alert) + StepIf(log[|log| - 1], alert)
  }

  function InstanceStepIf(e: InstanceEvent, alert: Id): seq<AlertStep> {
    if e.change.InstanceAlertChanged? && e.change.alert == alert then [e.change.step] else []
  }

  /** The steps the occurrence log records for one alert, in order. */
  function InstanceAlertSteps(log: seq<InstanceEvent>, alert: Id): seq<AlertStep> {
    if log == [] then []
    else InstanceAlertSteps(log[..|log| - 1], alert) + InstanceStepIf(log[|log| - 1], alert)
  }

  /** The payloads the outbox carries for one alert. */
  function Deliveries(outbox: seq<OutboxEvent>, alert: Id): seq<AlertSpec> {
    if outbox == [] then []
    else
      var last := outbox[|outbox| - 1];
      Deliveries(outbox[..|outbox| - 1], alert) + if last.alert == alert then [last.payload] else []
  }

  /** The steps an alert's own row says it has taken. */
  function HistoryOf(a: Alert): seq<AlertStep> {
    (if a.readyAt.Some? then [SentStep(a.spec.kind)] else [])
    + (match a.status
       case AlertAcknowledged => [AckRecorded]
       case AlertCancelled => [CancelRecorded]
       case _ => [])
  }
}
