/** The invariant of the obligation tables, in parts that each read as few tables as they can. */
module Invariants {
  import opened Common
  import opened EscalationPolicy
  import opened Tables
  import opened Workflow
  import opened Alerts
  import opened EventLog

  // Rows

  predicate ObligationOk(o: Obligation) {
    && (o.status.Unassigned? <==> o.owner.None?)
    && (o.owner.Some? <==> o.ownerSubject.Some?)
    && (o.completedAt.Some? <==> o.status.Completed?)
    && (o.acknowledgedAt.Some? ==> o.owner.Some?)
    && !o.status.Scheduled?
    && o.revision >= 1
    && Canonical(o.policy)
  }

  /** An occurrence and the obligation it was generated from. */
  predicate InstanceOk(i: Instance, parent: Obligation) {
    && (i.completedAt.Some? <==> i.status.Completed?)
    && !i.status.Unassigned?
    && i.revision >= 1
    && i.dueAt == i.scheduledFor
    && (i.owner.Some? <==> i.ownerSubject.Some?)
    && Canonical(i.policy)
    && i.requirements == parent.requirements
    && i.monetaryValue == parent.monetaryValue
    && i.leadTimeDays == parent.leadTimeDays
    && i.policy == parent.policy
    && i.sourceRevision <= parent.revision
  }

  /** An artifact and its obligation: a decision names its reviewer, and an acceptance respected
      the separation of duties the obligation asks for. */
  predicate EvidenceOk(e: Evidence, parent: Obligation) {
    && (e.status.Pending? <==> e.reviewedBy.None?)
    && (e.status.Pending? <==> e.reviewedAt.None?)
    && (e.status.Accepted? ==>
          && RequiresIndependence(parent.requirements, parent.monetaryValue).Success?
          && (RequiresIndependence(parent.requirements, parent.monetaryValue).value ==>
                e.reviewedBy != Some(e.submittedBy)))
  }

  /** The CHECK constraints on an alert's immutable part, and its key. */
  predicate SpecOk(s: AlertSpec) {
    && (s.kind.Escalation? <==> s.level > 0)
    && (s.owner.Some? || s.ownerSubject.Some? || s.targetRole.Some?)
    && s.key == AlertKey(if s.instance.Some? then s.instance.value else s.obligation, s.dueAt, s.kind, s.level)
  }

  /** The shape of an alert in each status; its revision counts its transitions. */
  predicate AlertOk(a: Alert) {
    && SpecOk(a.spec)
    && a.revision == 1 + |HistoryOf(a)|
    && (a.status.AlertScheduled? ==> a.readyAt.None?)
    && (a.status.AlertReady? || a.status.AlertAcknowledged? ==> a.readyAt.Some?)
    && (a.status.AlertAcknowledged? <==> a.acknowledgedAt.Some?)
    && (a.status.AlertAcknowledged? <==> a.acknowledgedBy.Some?)
  }

  ghost predicate Rows(obligations: map<Id, Obligation>, instances: map<Id, Instance>,
                       evidence: map<Id, Evidence>, alerts: map<Id, Alert>) {
    && (forall o :: o in obligations ==> ObligationOk(obligations[o]))
    && (forall i :: i in instances ==>
          instances[i].obligation in obligations && InstanceOk(instances[i], obligations[instances[i].obligation]))
    && (forall e :: e in evidence ==>
          && evidence[e].obligation in obligations
          && EvidenceOk(evidence[e], obligations[evidence[e].obligation])
          && (evidence[e].instance.Some? ==>
                evidence[e].instance.value in instances
                && instances[evidence[e].instance.value].obligation == evidence[e].obligation))
    && (forall a :: a in alerts ==>
          && AlertOk(alerts[a])
          && alerts[a].spec.obligation in obligations
          && (alerts[a].spec.instance.Some? ==>
                alerts[a].spec.instance.value in instances
                && instances[alerts[a].spec.instance.value].obligation == alerts[a].spec.obligation))
  }

  // Identifiers

  ghost predicate Fresh(db: Database) {
    && (forall o :: o in db.obligations ==> o < db.nextId)
    && (forall i :: i in db.instances ==> i < db.nextId && i !in db.obligations)
    && (forall e :: e in db.evidence ==> e < db.nextId)
    && (forall a :: a in db.alerts ==> a < db.nextId)
  }

  // Unique constraints

  ghost predicate OnePerFact(obligations: map<Id, Obligation>) {
    forall x, y :: x in obligations && y in obligations && obligations[x].sourceFact == obligations[y].sourceFact ==> x == y
  }

  predicate SameOccurrence(a: Instance, b: Instance) {
    a.obligation == b.obligation && a.scheduledFor == b.scheduledFor
  }

  ghost predicate OnePerTime(instances: map<Id, Instance>) {
    forall x, y | x in instances && y in instances && SameOccurrence(instances[x], instances[y]) :: x == y
  }

  ghost predicate OnePerHash(evidence: map<Id, Evidence>) {
    forall x, y | x in evidence && y in evidence
                  && SameArtifact(evidence[x], evidence[y].obligation, evidence[y].instance, evidence[y].sha256) :: x == y
  }

  ghost predicate OnePerKey(alerts: map<Id, Alert>) {
    forall x, y :: x in alerts && y in alerts && alerts[x].spec.key == alerts[y].spec.key ==> x == y
  }

  // Completed means evidenced

  ghost predicate CompletedEvidenced(obligations: map<Id, Obligation>, instances: map<Id, Instance>,
                                     evidence: map<Id, Evidence>) {
    && (forall o :: o in obligations && obligations[o].status.Completed? ==>
          Evidenced(obligations[o].requirements, evidence, OfObligation(o)))
    && (forall i :: i in instances && instances[i].status.Completed? ==>
          Evidenced(instances[i].requirements, evidence, OfInstance(i)))
  }

  // Logs

  ghost predicate ObligationLog(obligations: map<Id, Obligation>, events: seq<ObligationEvent>) {
    forall id :: Replay(events, id) == if id in obligations then Live(ProjectionOf(obligations[id])) else Unborn
  }

  ghost predicate InstanceLog(instances: map<Id, Instance>, events: seq<InstanceEvent>) {
    forall id :: ReplayInstance(events, id) ==
                   if id in instances then Running(InstanceProjectionOf(instances[id])) else NotGenerated
  }

  ghost predicate AlertLog(alerts: map<Id, Alert>, events: seq<ObligationEvent>) {
    forall id :: AlertSteps(events, id) == if id in alerts then HistoryOf(alerts[id]) else []
  }

  ghost predicate InstanceAlertLog(alerts: map<Id, Alert>, events: seq<InstanceEvent>) {
    forall id :: InstanceAlertSteps(events, id) ==
                   if id in alerts && alerts[id].spec.instance.Some? then HistoryOf(alerts[id]) else []
  }

  /** Every ready alert is in the outbox exactly once, with its own payload, and nothing else is. */
  ghost predicate Delivered(alerts: map<Id, Alert>, outbox: seq<OutboxEvent>) {
    forall id :: Deliveries(outbox, id) ==
                   if id in alerts && alerts[id].readyAt.Some? then [alerts[id].spec] else []
  }

  ghost predicate Inv(db: Database) {
    && Rows(db.obligations, db.instances, db.evidence, db.alerts)
    && Fresh(db)
    && OnePerFact(db.obligations)
    && OnePerTime(db.instances)
    && OnePerHash(db.evidence)
    && OnePerKey(db.alerts)
    && CompletedEvidenced(db.obligations, db.instances, db.evidence)
    && ObligationLog(db.obligations, db.events)
    && InstanceLog(db.instances, db.instanceEvents)
    && AlertLog(db.alerts, db.events)
    && InstanceAlertLog(db.alerts, db.instanceEvents)
    && Delivered(db.alerts, db.outbox)
  }

  lemma EmptyInv()
    ensures Inv(EmptyDatabase)
  {
  }
}
