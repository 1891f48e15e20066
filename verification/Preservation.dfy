/** Each elementary update of the tables keeps the invariant. */
module Preservation {
  import opened Common
  import opened EscalationPolicy
  import opened Tables
  import opened Workflow
  import opened Occurrences
  import opened Alerts
  import opened EventLog
  import opened Invariants

  /** The part of an obligation no operation may change. */
  ghost predicate SameTerms(a: Obligation, b: Obligation) {
    && a.sourceFact == b.sourceFact
    && a.dueAt == b.dueAt
    && a.recurrence == b.recurrence
    && a.leadTimeDays == b.leadTimeDays
    && a.policy == b.policy
    && a.requirements == b.requirements
    && a.monetaryValue == b.monetaryValue
  }

  // Rows, one table at a time

  lemma RowsObligation(obligations: map<Id, Obligation>, instances: map<Id, Instance>,
                       evidence: map<Id, Evidence>, alerts: map<Id, Alert>, id: Id, o: Obligation)
    requires Rows(obligations, instances, evidence, alerts)
    requires ObligationOk(o)
    requires id in obligations ==> SameTerms(o, obligations[id]) && o.revision >= obligations[id].revision
    ensures Rows(obligations[id := o], instances, evidence, alerts)
  {
  }

  lemma RowsInstance(obligations: map<Id, Obligation>, instances: map<Id, Instance>,
                     evidence: map<Id, Evidence>, alerts: map<Id, Alert>, id: Id, i: Instance)
    requires Rows(obligations, instances, evidence, alerts)
    requires i.obligation in obligations && InstanceOk(i, obligations[i.obligation])
    requires id in instances ==> i.obligation == instances[id].obligation
    ensures Rows(obligations, instances[id := i], evidence, alerts)
  {
  }

  lemma RowsEvidence(obligations: map<Id, Obligation>, instances: map<Id, Instance>,
                     evidence: map<Id, Evidence>, alerts: map<Id, Alert>, id: Id, e: Evidence)
    requires Rows(obligations, instances, evidence, alerts)
    requires e.obligation in obligations && EvidenceOk(e, obligations[e.obligation])
    requires e.instance.Some? ==> e.instance.value in instances && instances[e.instance.value].obligation == e.obligation
    ensures Rows(obligations, instances, evidence[id := e], alerts)
  {
  }

  lemma RowsAlert(obligations: map<Id, Obligation>, instances: map<Id, Instance>,
                  evidence: map<Id, Evidence>, alerts: map<Id, Alert>, id: Id, a: Alert)
    requires Rows(obligations, instances, evidence, alerts)
    requires AlertOk(a) && a.spec.obligation in obligations
    requires a.spec.instance.Some? ==>
               a.spec.instance.value in instances && instances[a.spec.instance.value].obligation == a.spec.obligation
    ensures Rows(obligations, instances, evidence, alerts[id := a])
  {
  }

  /** An alert's step leaves its immutable part, hence its references, alone. */
  lemma RowsAlertStep(obligations: map<Id, Obligation>, instances: map<Id, Instance>,
                      evidence: map<Id, Evidence>, alerts: map<Id, Alert>, id: Id, a: Alert)
    requires Rows(obligations, instances, evidence, alerts)
    requires id in alerts && AlertOk(a) && a.spec == alerts[id].spec
    ensures Rows(obligations, instances, evidence, alerts[id := a])
  {
  }

  lemma AlertReferences(obligations: map<Id, Obligation>, instances: map<Id, Instance>,
                        evidence: map<Id, Evidence>, alerts: map<Id, Alert>, id: Id)
    requires Rows(obligations, instances, evidence, alerts)
    requires id in alerts
    ensures AlertOk(alerts[id])
    ensures alerts[id].spec.obligation in obligations
    ensures alerts[id].spec.instance.Some? ==> alerts[id].spec.instance.value in instances
  {
  }

  lemma EvidenceReferences(obligations: map<Id, Obligation>, instances: map<Id, Instance>,
                           evidence: map<Id, Evidence>, alerts: map<Id, Alert>, id: Id)
    requires Rows(obligations, instances, evidence, alerts)
    requires id in evidence
    ensures evidence[id].obligation in obligations
    ensures evidence[id].instance.Some? ==>
              evidence[id].instance.value in instances
              && instances[evidence[id].instance.value].obligation == evidence[id].obligation
  {
  }

  lemma InstanceReferences(obligations: map<Id, Obligation>, instances: map<Id, Instance>,
                           evidence: map<Id, Evidence>, alerts: map<Id, Alert>, id: Id)
    requires Rows(obligations, instances, evidence, alerts)
    requires id in instances
    ensures instances[id].obligation in obligations
    ensures InstanceOk(instances[id], obligations[instances[id].obligation])
  {
  }

  lemma ObligationRow(obligations: map<Id, Obligation>, instances: map<Id, Instance>,
                      evidence: map<Id, Evidence>, alerts: map<Id, Alert>, id: Id)
    requires Rows(obligations, instances, evidence, alerts)
    requires id in obligations
    ensures ObligationOk(obligations[id])
  {
  }

  // Unique constraints

  lemma FactUpdate(obligations: map<Id, Obligation>, id: Id, o: Obligation)
    requires OnePerFact(obligations)
    requires forall x :: x in obligations && obligations[x].sourceFact == o.sourceFact ==> x == id
    ensures OnePerFact(obligations[id := o])
  {
  }

  lemma TimeUpdate(instances: map<Id, Instance>, id: Id, i: Instance)
    requires OnePerTime(instances)
    requires forall x :: x in instances && SameOccurrence(instances[x], i) ==> x == id
    ensures OnePerTime(instances[id := i])
  {
  }

  lemma HashUpdate(evidence: map<Id, Evidence>, id: Id, e: Evidence)
    requires OnePerHash(evidence)
    requires forall x :: x in evidence && SameArtifact(evidence[x], e.obligation, e.instance, e.sha256) ==> x == id
    ensures OnePerHash(evidence[id := e])
  {
  }

  lemma KeyUpdate(alerts: map<Id, Alert>, id: Id, a: Alert)
    requires OnePerKey(alerts)
    requires forall x :: x in alerts && alerts[x].spec.key == a.spec.key ==> x == id
    ensures OnePerKey(alerts[id := a])
  {
  }

  lemma FactStep(obligations: map<Id, Obligation>, id: Id, o: Obligation)
    requires OnePerFact(obligations)
    requires id in obligations && o.sourceFact == obligations[id].sourceFact
    ensures OnePerFact(obligations[id := o])
  {
  }

  lemma TimeStep(instances: map<Id, Instance>, id: Id, i: Instance)
    requires OnePerTime(instances)
    requires id in instances && SameOccurrence(i, instances[id])
    ensures OnePerTime(instances[id := i])
  {
  }

  lemma HashStep(evidence: map<Id, Evidence>, id: Id, e: Evidence)
    requires OnePerHash(evidence)
    requires id in evidence && SameArtifact(e, evidence[id].obligation, evidence[id].instance, evidence[id].sha256)
    ensures OnePerHash(evidence[id := e])
  {
  }

  lemma KeyStep(alerts: map<Id, Alert>, id: Id, a: Alert)
    requires OnePerKey(alerts)
    requires id in alerts && a.spec == alerts[id].spec
    ensures OnePerKey(alerts[id := a])
  {
  }

  // Completed means evidenced

  lemma CompletedObligation(obligations: map<Id, Obligation>, instances: map<Id, Instance>,
                            evidence: map<Id, Evidence>, id: Id, o: Obligation)
    requires CompletedEvidenced(obligations, instances, evidence)
    requires o.status.Completed? ==> Evidenced(o.requirements, evidence, OfObligation(id))
    ensures CompletedEvidenced(obligations[id := o], instances, evidence)
  {
  }

  lemma CompletedInstance(obligations: map<Id, Obligation>, instances: map<Id, Instance>,
                          evidence: map<Id, Evidence>, id: Id, i: Instance)
    requires CompletedEvidenced(obligations, instances, evidence)
    requires i.status.Completed? ==> Evidenced(i.requirements, evidence, OfInstance(id))
    ensures CompletedEvidenced(obligations, instances[id := i], evidence)
  {
  }

  // Logs

  lemma ObligationLogAppend(obligations: map<Id, Obligation>, log: seq<ObligationEvent>, e: ObligationEvent,
                            o: Obligation)
    requires ObligationLog(obligations, log)
    requires Apply(if e.obligation in obligations then Live(ProjectionOf(obligations[e.obligation])) else Unborn, e)
               == Live(ProjectionOf(o))
    ensures ObligationLog(obligations[e.obligation := o], log + [e])
  {
  }

  lemma InstanceLogAppend(instances: map<Id, Instance>, log: seq<InstanceEvent>, e: InstanceEvent, i: Instance)
    requires InstanceLog(instances, log)
    requires ApplyInstance(if e.instance in instances then Running(InstanceProjectionOf(instances[e.instance])) else NotGenerated, e)
               == Running(InstanceProjectionOf(i))
    ensures InstanceLog(instances[e.instance := i], log + [e])
  {
  }

  lemma AlertLogOther(alerts: map<Id, Alert>, log: seq<ObligationEvent>, e: ObligationEvent)
    requires AlertLog(alerts, log)
    requires !e.change.AlertChanged?
    ensures AlertLog(alerts, log + [e])
  {
  }

  lemma InstanceAlertLogOther(alerts: map<Id, Alert>, log: seq<InstanceEvent>, e: InstanceEvent)
    requires InstanceAlertLog(alerts, log)
    requires !e.change.InstanceAlertChanged?
    ensures InstanceAlertLog(alerts, log + [e])
  {
  }

  lemma AlertLogAppend(alerts: map<Id, Alert>, log: seq<ObligationEvent>, e: ObligationEvent, a: Alert)
    requires AlertLog(alerts, log)
    requires e.change.AlertChanged? && e.change.alert in alerts
    requires HistoryOf(a) == HistoryOf(alerts[e.change.alert]) + [e.change.step]
    ensures AlertLog(alerts[e.change.alert := a], log + [e])
  {
  }

  lemma InstanceAlertLogAppend(alerts: map<Id, Alert>, log: seq<InstanceEvent>, e: InstanceEvent, a: Alert)
    requires InstanceAlertLog(alerts, log)
    requires e.change.InstanceAlertChanged? && e.change.alert in alerts
    requires a.spec == alerts[e.change.alert].spec && a.spec.instance.Some?
    requires HistoryOf(a) == HistoryOf(alerts[e.change.alert]) + [e.change.step]
    ensures InstanceAlertLog(alerts[e.change.alert := a], log + [e])
  {
  }

  /** An alert about an obligation only: the occurrence log does not mention it. */
  lemma InstanceAlertLogSkip(alerts: map<Id, Alert>, log: seq<InstanceEvent>, id: Id, a: Alert)
    requires InstanceAlertLog(alerts, log)
    requires id in alerts && a.spec == alerts[id].spec && a.spec.instance.None?
    ensures InstanceAlertLog(alerts[id := a], log)
  {
  }

  lemma DeliveredQuiet(alerts: map<Id, Alert>, outbox: seq<OutboxEvent>, id: Id, a: Alert)
    requires Delivered(alerts, outbox)
    requires if id in alerts then a.spec == alerts[id].spec && a.readyAt == alerts[id].readyAt else a.readyAt.None?
    ensures Delivered(alerts[id := a], outbox)
  {
  }

  lemma DeliveredAppend(alerts: map<Id, Alert>, outbox: seq<OutboxEvent>, id: Id, a: Alert)
    requires Delivered(alerts, outbox)
    requires id in alerts && alerts[id].readyAt.None? && a.readyAt.Some?
    ensures Delivered(alerts[id := a], outbox + [AlertReadyEvent(id, a.spec)])
  {
  }

  lemma NewAlertLogs(alerts: map<Id, Alert>, log: seq<ObligationEvent>, instanceLog: seq<InstanceEvent>, id: Id,
                     a: Alert)
    requires AlertLog(alerts, log) && InstanceAlertLog(alerts, instanceLog)
    requires id !in alerts && HistoryOf(a) == []
    ensures AlertLog(alerts[id := a], log) && InstanceAlertLog(alerts[id := a], instanceLog)
  {
  }

  /** An existing obligation's row changes and one event records it. */
  lemma RecordKeeps(db: Database, id: Id, o: Obligation, actor: string, change: Change)
    requires Inv(db)
    requires id in db.obligations && ObligationOk(o) && SameTerms(o, db.obligations[id])
    requires o.revision >= db.obligations[id].revision
    requires !change.AlertChanged?
    requires Apply(Live(ProjectionOf(db.obligations[id])),
                   ObligationEvent(id, actor, Some(db.obligations[id].status), Some(o.status), change)) == Live(ProjectionOf(o))
    requires o.status.Completed? ==> Evidenced(o.requirements, db.evidence, OfObligation(id))
    ensures Inv(Record(db, id, o, Some(db.obligations[id].status), actor, change))
  {
    hide Rows, OnePerFact, OnePerTime, OnePerHash, OnePerKey, CompletedEvidenced, Evidenced;
    hide ObligationLog, InstanceLog, AlertLog, InstanceAlertLog, Delivered;
    var e := ObligationEvent(id, actor, Some(db.obligations[id].status), Some(o.status), change);
    RowsObligation(db.obligations, db.instances, db.evidence, db.alerts, id, o);
    FactStep(db.obligations, id, o);
    CompletedObligation(db.obligations, db.instances, db.evidence, id, o);
    ObligationLogAppend(db.obligations, db.events, e, o);
    AlertLogOther(db.alerts, db.events, e);
  }

  /** A new obligation and its creation event. */
  lemma CreationKeeps(db: Database, o: Obligation, actor: string)
    requires Inv(db)
    requires ObligationOk(o) && o.revision == 1 && o.acknowledgedAt.None? && !o.status.Completed?
    requires o.status == if o.owner.Some? then Active else Unassigned
    requires !HasObligationFor(db, o.sourceFact)
    ensures Inv(Record(db, db.nextId, o, None, actor, Created(o.owner)).(nextId := db.nextId + 1))
  {
    hide Rows, OnePerFact, OnePerTime, OnePerHash, OnePerKey, CompletedEvidenced, Evidenced;
    hide ObligationLog, InstanceLog, AlertLog, InstanceAlertLog, Delivered;
    var e := ObligationEvent(db.nextId, actor, None, Some(o.status), Created(o.owner));
    RowsObligation(db.obligations, db.instances, db.evidence, db.alerts, db.nextId, o);
    FactUpdate(db.obligations, db.nextId, o);
    CompletedObligation(db.obligations, db.instances, db.evidence, db.nextId, o);
    ObligationLogAppend(db.obligations, db.events, e, o);
    AlertLogOther(db.alerts, db.events, e);
  }

  // Evidence

  /** Accepted artifacts are kept, in the same scope and with the same type. */
  ghost predicate KeepsAccepted(before: map<Id, Evidence>, after: map<Id, Evidence>) {
    forall e :: e in before && before[e].status.Accepted? ==> e in after && after[e] == before[e]
  }

  lemma EvidencedMonotone(r: Requirements, before: map<Id, Evidence>, after: map<Id, Evidence>, scope: Scope)
    requires KeepsAccepted(before, after)
    requires Evidenced(r, before, scope)
    ensures Evidenced(r, after, scope)
  {
    var old', new' := AcceptedIn(before, scope), AcceptedIn(after, scope);
    assert old' <= new';
    assert new' == old' + (new' - old');
    assert |old'| <= |new'|;
    forall t | t in TypesOf(before, old')
      ensures t in TypesOf(after, new')
    {
    }
  }

  lemma CompletedMonotone(obligations: map<Id, Obligation>, instances: map<Id, Instance>,
                          before: map<Id, Evidence>, after: map<Id, Evidence>)
    requires CompletedEvidenced(obligations, instances, before)
    requires KeepsAccepted(before, after)
    ensures CompletedEvidenced(obligations, instances, after)
  {
    forall o | o in obligations && obligations[o].status.Completed?
      ensures Evidenced(obligations[o].requirements, after, OfObligation(o))
    {
      EvidencedMonotone(obligations[o].requirements, before, after, OfObligation(o));
    }
    forall i | i in instances && instances[i].status.Completed?
      ensures Evidenced(instances[i].requirements, after, OfInstance(i))
    {
      EvidencedMonotone(instances[i].requirements, before, after, OfInstance(i));
    }
  }

  /** A pending artifact added, under a fresh id. */
  lemma ArtifactKeeps(db: Database, row: Evidence)
    requires Inv(db)
    requires row.obligation in db.obligations && row.status.Pending? && row.reviewedBy.None? && row.reviewedAt.None?
    requires row.instance.Some? ==>
               row.instance.value in db.instances && db.instances[row.instance.value].obligation == row.obligation
    requires !HasArtifact(db, row.obligation, row.instance, row.sha256)
    ensures Inv(db.(evidence := db.evidence[db.nextId := row], nextId := db.nextId + 1))
  {
    hide Rows, OnePerFact, OnePerTime, OnePerHash, OnePerKey, CompletedEvidenced, Evidenced;
    hide ObligationLog, InstanceLog, AlertLog, InstanceAlertLog, Delivered;
    RowsEvidence(db.obligations, db.instances, db.evidence, db.alerts, db.nextId, row);
    HashUpdate(db.evidence, db.nextId, row);
    CompletedMonotone(db.obligations, db.instances, db.evidence, db.evidence[db.nextId := row]);
  }

  /** A pending artifact decided. */
  lemma DecisionKeeps(db: Database, e: Id, row: Evidence)
    requires Inv(db)
    requires e in db.evidence && db.evidence[e].status.Pending?
    requires SameArtifact(row, db.evidence[e].obligation, db.evidence[e].instance, db.evidence[e].sha256)
    requires EvidenceOk(row, db.obligations[row.obligation])
    ensures Inv(db.(evidence := db.evidence[e := row]))
  {
    hide Rows, OnePerFact, OnePerTime, OnePerHash, OnePerKey, CompletedEvidenced, Evidenced;
    hide ObligationLog, InstanceLog, AlertLog, InstanceAlertLog, Delivered;
    EvidenceReferences(db.obligations, db.instances, db.evidence, db.alerts, e);
    RowsEvidence(db.obligations, db.instances, db.evidence, db.alerts, e, row);
    HashStep(db.evidence, e, row);
    CompletedMonotone(db.obligations, db.instances, db.evidence, db.evidence[e := row]);
  }

  // Occurrences

  lemma InstanceStepKeeps(db: Database, id: Id, i: Instance, actor: string, change: InstanceChange)
    requires Inv(db)
    requires id in db.instances && i.obligation == db.instances[id].obligation && i.scheduledFor == db.instances[id].scheduledFor
    requires InstanceOk(i, db.obligations[i.obligation])
    requires !change.InstanceAlertChanged?
    requires ApplyInstance(Running(InstanceProjectionOf(db.instances[id])),
                           InstanceEvent(id, actor, Some(db.instances[id].status), Some(i.status), change))
               == Running(InstanceProjectionOf(i))
    requires i.status.Completed? ==> Evidenced(i.requirements, db.evidence, OfInstance(id))
    ensures Inv(db.(instances := db.instances[id := i],
                    instanceEvents := db.instanceEvents +
                      [InstanceEvent(id, actor, Some(db.instances[id].status), Some(i.status), change)]))
  {
    hide Rows, OnePerFact, OnePerTime, OnePerHash, OnePerKey, CompletedEvidenced, Evidenced;
    hide ObligationLog, InstanceLog, AlertLog, InstanceAlertLog, Delivered;
    var e := InstanceEvent(id, actor, Some(db.instances[id].status), Some(i.status), change);
    InstanceReferences(db.obligations, db.instances, db.evidence, db.alerts, id);
    RowsInstance(db.obligations, db.instances, db.evidence, db.alerts, id, i);
    TimeStep(db.instances, id, i);
    CompletedInstance(db.obligations, db.instances, db.evidence, id, i);
    InstanceLogAppend(db.instances, db.instanceEvents, e, i);
    InstanceAlertLogOther(db.alerts, db.instanceEvents, e);
  }

  lemma AddOccurrenceKeeps(db: Database, id: Id, t: Time, actor: string)
    requires Inv(db)
    requires id in db.obligations && db.obligations[id].recurrence.Some?
    requires !IsScheduledAt(db, id, t)
    ensures Inv(AddOccurrence(db, id, t, actor))
  {
    hide Rows, OnePerFact, OnePerTime, OnePerHash, OnePerKey, CompletedEvidenced, Evidenced;
    hide ObligationLog, InstanceLog, AlertLog, InstanceAlertLog, Delivered;
    var o := db.obligations[id];
    var i := Snapshot(id, o, t);
    var e := InstanceEvent(db.nextId, actor, None, Some(Scheduled), Generated(o.revision, t));
    ObligationRow(db.obligations, db.instances, db.evidence, db.alerts, id);
    RowsInstance(db.obligations, db.instances, db.evidence, db.alerts, db.nextId, i);
    TimeUpdate(db.instances, db.nextId, i);
    CompletedInstance(db.obligations, db.instances, db.evidence, db.nextId, i);
    InstanceLogAppend(db.instances, db.instanceEvents, e, i);
    InstanceAlertLogOther(db.alerts, db.instanceEvents, e);
  }

  lemma {:induction false} AddMissingKeeps(db: Database, id: Id, times: seq<Time>, actor: string)
    requires Inv(db)
    requires id in db.obligations && db.obligations[id].recurrence.Some?
    ensures Inv(AddMissing(db, id, times, actor).0)
  {
    if times != [] {
      AddMissingKeeps(db, id, times[..|times| - 1], actor);
      var before := AddMissing(db, id, times[..|times| - 1], actor).0;
      if !IsScheduledAt(before, id, times[|times| - 1]) {
        AddOccurrenceKeeps(before, id, times[|times| - 1], actor);
      }
    }
  }

  lemma MaterializeKeeps(db: Database, id: Id, windowStart: Time, windowEnd: Time, actor: string)
    requires Inv(db)
    requires Materialize(db, id, windowStart, windowEnd, actor).Success?
    ensures Inv(Materialize(db, id, windowStart, windowEnd, actor).value.0)
  {
    hide Rows, OnePerFact, OnePerTime, OnePerHash, OnePerKey, CompletedEvidenced, Evidenced;
    hide ObligationLog, InstanceLog, AlertLog, InstanceAlertLog, Delivered;
    var o := db.obligations[id];
    var times := Expand(o.recurrence.value, windowStart, windowEnd).value;
    AddMissingKeeps(db, id, times, actor);
    var (db', created) := AddMissing(db, id, times, actor);
    if created != [] {
      MaterializedKeeps(db', id, actor, created);
    }
  }

  lemma MaterializedKeeps(db: Database, id: Id, actor: string, created: seq<Id>)
    requires Inv(db)
    requires id in db.obligations && created != []
    ensures var status := Some(db.obligations[id].status);
            Inv(db.(events := db.events + [ObligationEvent(id, actor, status, status, InstancesMaterialized(created))]))
  {
    hide Rows, OnePerFact, OnePerTime, OnePerHash, OnePerKey, CompletedEvidenced, Evidenced;
    hide ObligationLog, InstanceLog, AlertLog, InstanceAlertLog, Delivered;
    var o := db.obligations[id];
    var e := ObligationEvent(id, actor, Some(o.status), Some(o.status), InstancesMaterialized(created));
    ObligationLogAppend(db.obligations, db.events, e, o);
    assert db.obligations[id := o] == db.obligations;
    AlertLogOther(db.alerts, db.events, e);
  }

  // Alerts

  /** One alert takes one step, which both logs record. */
  lemma AlertStepKeepsLogs(db: Database, id: Id, a: Alert, step: AlertStep, actor: string)
    requires Rows(db.obligations, db.instances, db.evidence, db.alerts)
    requires ObligationLog(db.obligations, db.events) && InstanceLog(db.instances, db.instanceEvents)
    requires AlertLog(db.alerts, db.events) && InstanceAlertLog(db.alerts, db.instanceEvents)
    requires id in db.alerts && a.spec == db.alerts[id].spec
    requires HistoryOf(a) == HistoryOf(db.alerts[id]) + [step]
    ensures var d := RecordAlert(db, id, a, step, actor);
            && ObligationLog(d.obligations, d.events)
            && InstanceLog(d.instances, d.instanceEvents)
            && AlertLog(d.alerts, d.events)
            && InstanceAlertLog(d.alerts, d.instanceEvents)
  {
    hide Rows, OnePerFact, OnePerTime, OnePerHash, OnePerKey, CompletedEvidenced, Evidenced;
    hide ObligationLog, InstanceLog, AlertLog, InstanceAlertLog, Delivered;
    AlertReferences(db.obligations, db.instances, db.evidence, db.alerts, id);
    var e := ObligationEvent(a.spec.obligation, actor, None, None, AlertChanged(id, step));
    var o := db.obligations[a.spec.obligation];
    ObligationLogAppend(db.obligations, db.events, e, o);
    assert db.obligations[a.spec.obligation := o] == db.obligations;
    AlertLogAppend(db.alerts, db.events, e, a);
    if a.spec.instance.Some? {
      var ie := InstanceEvent(a.spec.instance.value, actor, None, None, InstanceAlertChanged(id, step));
      var i := db.instances[a.spec.instance.value];
      InstanceLogAppend(db.instances, db.instanceEvents, ie, i);
      assert db.instances[a.spec.instance.value := i] == db.instances;
      InstanceAlertLogAppend(db.alerts, db.instanceEvents, ie, a);
    } else {
      InstanceAlertLogSkip(db.alerts, db.instanceEvents, id, a);
      assert db.instanceEvents + [] == db.instanceEvents;
    }
  }

  /** The step's row, and everything but the outbox. */
  lemma AlertStepKeeps(db: Database, id: Id, a: Alert, step: AlertStep, actor: string, outbox: seq<OutboxEvent>)
    requires Inv(db)
    requires id in db.alerts && AlertOk(a) && a.spec == db.alerts[id].spec
    requires HistoryOf(a) == HistoryOf(db.alerts[id]) + [step]
    requires Delivered(db.alerts[id := a], outbox)
    ensures Inv(RecordAlert(db, id, a, step, actor).(outbox := outbox))
  {
    hide Rows, OnePerFact, OnePerTime, OnePerHash, OnePerKey, CompletedEvidenced, Evidenced;
    hide ObligationLog, InstanceLog, AlertLog, InstanceAlertLog, Delivered;
    AlertStepKeepsLogs(db, id, a, step, actor);
    RowsAlertStep(db.obligations, db.instances, db.evidence, db.alerts, id, a);
    KeyStep(db.alerts, id, a);
  }

  lemma CancelOneKeeps(db: Database, id: Id, actor: string)
    requires Inv(db)
    requires id in db.alerts && (db.alerts[id].status.AlertScheduled? || db.alerts[id].status.AlertReady?)
    ensures Inv(CancelOne(db, id, actor))
  {
    hide Rows, OnePerFact, OnePerTime, OnePerHash, OnePerKey, CompletedEvidenced, Evidenced;
    hide ObligationLog, InstanceLog, AlertLog, InstanceAlertLog, Delivered;
    var a := Cancelled(db.alerts[id]);
    AlertReferences(db.obligations, db.instances, db.evidence, db.alerts, id);
    StepOfCancel(db.alerts[id]);
    DeliveredQuiet(db.alerts, db.outbox, id, a);
    AlertStepKeeps(db, id, a, CancelRecorded, actor, db.outbox);
  }

  lemma StepOfCancel(a: Alert)
    requires AlertOk(a) && (a.status.AlertScheduled? || a.status.AlertReady?)
    ensures AlertOk(Cancelled(a)) && HistoryOf(Cancelled(a)) == HistoryOf(a) + [CancelRecorded]
  {
  }

  lemma ReadyOneKeeps(db: Database, id: Id, now: Time, actor: string)
    requires Inv(db)
    requires id in db.alerts && db.alerts[id].status.AlertScheduled?
    ensures Inv(ReadyOne(db, id, now, actor))
  {
    hide Rows, OnePerFact, OnePerTime, OnePerHash, OnePerKey, CompletedEvidenced, Evidenced;
    hide ObligationLog, InstanceLog, AlertLog, InstanceAlertLog, Delivered;
    var a := Readied(db.alerts[id], now);
    AlertReferences(db.obligations, db.instances, db.evidence, db.alerts, id);
    StepOfReady(db.alerts[id], now);
    DeliveredAppend(db.alerts, db.outbox, id, a);
    AlertStepKeeps(db, id, a, SentStep(a.spec.kind), actor, db.outbox + [AlertReadyEvent(id, a.spec)]);
  }

  lemma StepOfReady(a: Alert, now: Time)
    requires AlertOk(a) && a.status.AlertScheduled?
    ensures AlertOk(Readied(a, now)) && HistoryOf(Readied(a, now)) == HistoryOf(a) + [SentStep(a.spec.kind)]
  {
  }

  lemma AcknowledgeAlertKeeps(db: Database, id: Id, expected: nat, member: Id, subject: string,
                              roles: set<Recipient>, mayManage: bool, now: Time)
    requires Inv(db)
    requires AcknowledgeAlert(db, id, expected, member, subject, roles, mayManage, now).Success?
    ensures Inv(AcknowledgeAlert(db, id, expected, member, subject, roles, mayManage, now).value)
  {
    hide Rows, OnePerFact, OnePerTime, OnePerHash, OnePerKey, CompletedEvidenced, Evidenced;
    hide ObligationLog, InstanceLog, AlertLog, InstanceAlertLog, Delivered;
    var a := db.alerts[id];
    if !a.status.AlertAcknowledged? {
      var a' := a.(status := AlertAcknowledged, acknowledgedAt := Some(now),
                   acknowledgedBy := Some(subject), revision := a.revision + 1);
      AlertReferences(db.obligations, db.instances, db.evidence, db.alerts, id);
      StepOfAcknowledgement(a, a');
      DeliveredQuiet(db.alerts, db.outbox, id, a');
      AlertStepKeeps(db, id, a', AckRecorded, subject, db.outbox);
    }
  }

  lemma StepOfAcknowledgement(a: Alert, a': Alert)
    requires AlertOk(a) && a.status.AlertReady?
    requires a'.spec == a.spec && a'.readyAt == a.readyAt && a'.status.AlertAcknowledged?
    requires a'.acknowledgedAt.Some? && a'.acknowledgedBy.Some? && a'.revision == a.revision + 1
    ensures AlertOk(a') && HistoryOf(a') == HistoryOf(a) + [AckRecorded]
  {
  }

  lemma AddAlertKeeps(db: Database, spec: AlertSpec)
    requires Inv(db)
    requires SpecOk(spec) && spec.key !in KeysOf(db.alerts)
    requires spec.obligation in db.obligations
    requires spec.instance.Some? ==>
               spec.instance.value in db.instances && db.instances[spec.instance.value].obligation == spec.obligation
    ensures Inv(AddAlert(db, spec))
  {
    hide Rows, OnePerFact, OnePerTime, OnePerHash, OnePerKey, CompletedEvidenced, Evidenced;
    hide ObligationLog, InstanceLog, AlertLog, InstanceAlertLog, Delivered;
    var a := Alert(spec, AlertScheduled, 1, None, None, None);
    assert HistoryOf(a) == [];
    RowsAlert(db.obligations, db.instances, db.evidence, db.alerts, db.nextId, a);
    forall x | x in db.alerts
      ensures db.alerts[x].spec.key != spec.key
    {
      assert db.alerts[x].spec.key in KeysOf(db.alerts);
    }
    KeyUpdate(db.alerts, db.nextId, a);
    NewAlertLogs(db.alerts, db.events, db.instanceEvents, db.nextId, a);
    DeliveredQuiet(db.alerts, db.outbox, db.nextId, a);
  }
}
