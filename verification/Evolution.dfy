/** How the tables may change: the database triggers as relations between row versions, the
    order in which rows grow, and that every command stays within both. */
module Evolution {
  import opened Common
  import opened EscalationPolicy
  import opened Tables
  import opened Workflow
  import opened Occurrences
  import opened Alerts
  import opened EventLog
  import opened Invariants
  import opened Preservation
  import opened CyclePhases
  import opened Runs

  // The triggers, on an old and a new version of one row

  /** `protect_obligation_alert` */
  predicate AlertTrigger(old': Alert, new': Alert) {
    && new'.spec == old'.spec
    && new'.revision == old'.revision + 1
    && (|| (old'.status.AlertScheduled? && (new'.status.AlertReady? || new'.status.AlertCancelled?))
        || (old'.status.AlertReady? && (new'.status.AlertAcknowledged? || new'.status.AlertCancelled?)))
    && (new'.status.AlertReady? ==> new'.readyAt.Some?)
    && (new'.readyAt != old'.readyAt ==> old'.status.AlertScheduled? && new'.status.AlertReady?)
    && (new'.status.AlertAcknowledged? ==> new'.acknowledgedAt.Some? && new'.acknowledgedBy.Some?)
    && (new'.acknowledgedAt != old'.acknowledgedAt || new'.acknowledgedBy != old'.acknowledgedBy ==>
          old'.status.AlertReady? && new'.status.AlertAcknowledged?)
  }

  /** `protect_obligation_evidence` */
  predicate EvidenceTrigger(old': Evidence, new': Evidence) {
    && new'.obligation == old'.obligation && new'.instance == old'.instance
    && new'.evidenceType == old'.evidenceType && new'.sha256 == old'.sha256
    && new'.submittedBy == old'.submittedBy
    && if new'.status != old'.status then
         && old'.status.Pending? && !new'.status.Pending?
         && new'.reviewedBy.Some? && new'.reviewedAt.Some?
       else
         new'.reviewedBy == old'.reviewedBy && new'.reviewedAt == old'.reviewedAt && new'.note == old'.note
  }

  /** `protect_obligation_instance_snapshot` */
  ghost predicate InstanceTrigger(old': Instance, new': Instance) {
    new' == old'.(status := new'.status, completedAt := new'.completedAt, revision := new'.revision)
  }

  /** No row is deleted, no log entry is lost, and every changed row passes its trigger. */
  ghost predicate ObeysTriggers(db: Database, db': Database) {
    && (forall a :: a in db.alerts ==>
          a in db'.alerts && (db'.alerts[a] == db.alerts[a] || AlertTrigger(db.alerts[a], db'.alerts[a])))
    && (forall e :: e in db.evidence ==>
          e in db'.evidence && (db'.evidence[e] == db.evidence[e] || EvidenceTrigger(db.evidence[e], db'.evidence[e])))
    && (forall i :: i in db.instances ==>
          i in db'.instances && (db'.instances[i] == db.instances[i] || InstanceTrigger(db.instances[i], db'.instances[i])))
    && db.events <= db'.events
    && db.instanceEvents <= db'.instanceEvents
    && db.outbox <= db'.outbox
  }

  /** An obligation keeps its terms, its revision never decreases, a revision names one content,
      and a superseded obligation stays superseded. */
  ghost predicate ObligationsEvolve(a: map<Id, Obligation>, b: map<Id, Obligation>) {
    forall o :: o in a ==>
      && o in b && SameTerms(b[o], a[o]) && a[o].revision <= b[o].revision
      && (a[o].revision == b[o].revision ==> a[o] == b[o])
      && (a[o].status.Superseded? ==> b[o].status.Superseded?)
  }

  ghost predicate InstancesEvolve(a: map<Id, Instance>, b: map<Id, Instance>) {
    forall i :: i in a ==>
      && i in b && InstanceTrigger(a[i], b[i]) && a[i].revision <= b[i].revision
      && (a[i].revision == b[i].revision ==> a[i] == b[i])
      && (a[i].status.Superseded? ==> b[i].status.Superseded?)
  }

  /** A decided artifact never changes again. */
  ghost predicate EvidenceEvolves(a: map<Id, Evidence>, b: map<Id, Evidence>) {
    forall e :: e in a ==>
      && e in b && SameArtifact(b[e], a[e].obligation, a[e].instance, a[e].sha256)
      && b[e].evidenceType == a[e].evidenceType && b[e].submittedBy == a[e].submittedBy
      && (!a[e].status.Pending? ==> b[e] == a[e])
  }

  /** An acknowledged or cancelled alert never changes again; a revision names one content. */
  ghost predicate AlertsEvolve(a: map<Id, Alert>, b: map<Id, Alert>) {
    forall x :: x in a ==>
      && x in b && b[x].spec == a[x].spec && a[x].revision <= b[x].revision
      && (a[x].revision == b[x].revision ==> a[x] == b[x])
      && (a[x].status.AlertAcknowledged? || a[x].status.AlertCancelled? ==> b[x] == a[x])
  }

  ghost predicate Evolves(db: Database, db': Database) {
    && ObligationsEvolve(db.obligations, db'.obligations)
    && InstancesEvolve(db.instances, db'.instances)
    && EvidenceEvolves(db.evidence, db'.evidence)
    && AlertsEvolve(db.alerts, db'.alerts)
    && db.events <= db'.events
    && db.instanceEvents <= db'.instanceEvents
    && db.outbox <= db'.outbox
  }

  lemma EvolvesTransitive(a: Database, b: Database, c: Database)
    requires Evolves(a, b) && Evolves(b, c)
    ensures Evolves(a, c)
  {
  }

  // Commands on one obligation

  /** What one command may do to the tables: both relations at once. */
  ghost predicate Admissible(db: Database, db': Database) {
    ObeysTriggers(db, db') && Evolves(db, db')
  }

  lemma Unchanged(db: Database)
    ensures Admissible(db, db)
  {
  }

  /** An obligation's row and log, with every other table untouched. */
  lemma RecordAdmissible(db: Database, id: Id, o: Obligation, from: Option<Status>, actor: string, change: Change)
    requires id in db.obligations ==>
               && SameTerms(o, db.obligations[id]) && o.revision > db.obligations[id].revision
               && (db.obligations[id].status.Superseded? ==> o.status.Superseded?)
    ensures Admissible(db, Record(db, id, o, from, actor, change))
  {
  }

  lemma CreateAdmissible(db: Database, fact: Id, request: CreateRequest, actor: string)
    requires Inv(db)
    requires CreateFromFact(db, fact, request, actor).Success?
    ensures Admissible(db, CreateFromFact(db, fact, request, actor).value.0)
  {
    hide Inv, Admissible, Acceptable, CanonicalOf;
    Unchanged(db);
    if !HasObligationFor(db, fact) {
      var o := NewObligation(db, fact, request, ActiveMember(db, request.owner).value);
      FreshObligation(db);
      RecordAdmissible(db, db.nextId, o, None, actor, Created(request.owner));
      CounterAdmissible(db, Record(db, db.nextId, o, None, actor, Created(request.owner)), db.nextId + 1);
    }
  }

  lemma FreshObligation(db: Database)
    requires Inv(db)
    ensures db.nextId !in db.obligations && db.nextId !in db.evidence
  {
  }

  lemma CounterAdmissible(db: Database, db': Database, n: Id)
    requires Admissible(db, db')
    ensures Admissible(db, db'.(nextId := n))
  {
  }

  lemma AssignAdmissible(db: Database, id: Id, owner: Option<Id>, expected: nat, actor: string)
    ensures Admissible(db, After(db, Assign(db, id, owner, expected, actor)))
  {
    hide Admissible;
    Unchanged(db);
    if Assign(db, id, owner, expected, actor).Success? {
      var o := db.obligations[id];
      var o' := Assigned(o, owner, ActiveMember(db, owner).value);
      RecordAdmissible(db, id, o', Some(o.status), actor, OwnerSet(o.owner, owner, o'.revision));
    }
  }

  lemma AcknowledgeAdmissible(db: Database, id: Id, expected: nat, who: Actor, now: Time)
    ensures Admissible(db, After(db, Workflow.Acknowledge(db, id, expected, who, now)))
  {
    hide Admissible;
    Unchanged(db);
    if Workflow.Acknowledge(db, id, expected, who, now).Success? {
      var o := db.obligations[id];
      var o' := o.(acknowledgedAt := Some(now), revision := o.revision + 1);
      RecordAdmissible(db, id, o', Some(o.status), who.subject, Change.Acknowledged(o'.revision));
    }
  }

  lemma TransitionAdmissible(db: Database, id: Id, to: Status, expected: nat, who: Actor, now: Time)
    ensures Admissible(db, After(db, Transition(db, id, to, expected, who, now)))
  {
    hide Admissible, ValidateCompletion;
    Unchanged(db);
    if Transition(db, id, to, expected, who, now).Success? {
      var o := db.obligations[id];
      RecordAdmissible(db, id, Moved(o, to, now), Some(o.status), who.subject, MoveChange(o));
    }
  }

  /** An obligation's row and log, and one artifact added or decided. */
  lemma ArtifactAdmissible(db: Database, id: Id, o: Obligation, actor: string, change: Change, e: Id, row: Evidence)
    requires id in db.obligations && o == db.obligations[id].(revision := db.obligations[id].revision + 1)
    requires e in db.evidence ==> db.evidence[e].status.Pending? && EvidenceTrigger(db.evidence[e], row)
    ensures var recorded := Record(db, id, o, Some(o.status), actor, change);
            Admissible(db, recorded.(evidence := db.evidence[e := row]))
  {
  }

  lemma SubmitAdmissible(db: Database, id: Id, expected: nat, who: Actor, instance: Option<Id>,
                         evidenceType: string, sha256: string)
    requires Inv(db)
    requires SubmitEvidence(db, id, expected, who, instance, evidenceType, sha256).Success?
    ensures Admissible(db, SubmitEvidence(db, id, expected, who, instance, evidenceType, sha256).value.0)
  {
    hide Inv, Admissible;
    Unchanged(db);
    if !HasArtifact(db, id, instance, sha256) {
      var o := db.obligations[id];
      var o' := o.(revision := o.revision + 1);
      var row := Evidence(id, instance, evidenceType, sha256, who.member, Pending, None, None, None);
      var change := EvidenceSubmitted(db.nextId, o'.revision);
      FreshObligation(db);
      ArtifactAdmissible(db, id, o', who.subject, change, db.nextId, row);
      CounterAdmissible(db, Record(db, id, o', Some(o.status), who.subject, change).(evidence := db.evidence[db.nextId := row]),
                        db.nextId + 1);
    }
  }

  lemma ReviewAdmissible(db: Database, id: Id, e: Id, decision: Decision, expected: nat, who: Actor,
                         note: Option<string>, now: Time)
    ensures Admissible(db, After(db, ReviewEvidence(db, id, e, decision, expected, who, note, now)))
  {
    hide Admissible, RequiresIndependence;
    Unchanged(db);
    if ReviewEvidence(db, id, e, decision, expected, who, note, now).Success? {
      var o := db.obligations[id];
      var row := Decided(db.evidence[e], decision, who.member, note, now);
      ArtifactAdmissible(db, id, o.(revision := o.revision + 1), who.subject,
                         EvidenceDecided(e, row.status, o.revision + 1), e, row);
    }
  }

  // Occurrences

  lemma InstanceRowAdmissible(db: Database, id: Id, i: Instance, e: InstanceEvent)
    requires id in db.instances && InstanceTrigger(db.instances[id], i) && i.revision > db.instances[id].revision
    requires !db.instances[id].status.Superseded?
    ensures Admissible(db, db.(instances := db.instances[id := i], instanceEvents := db.instanceEvents + [e]))
  {
  }

  lemma MoveInstanceAdmissible(db: Database, obligation: Id, id: Id, to: Status, expected: nat, who: Actor, now: Time)
    ensures Admissible(db, After(db, TransitionInstance(db, obligation, id, to, expected, who, now)))
  {
    hide Admissible, ValidateCompletion;
    Unchanged(db);
    if TransitionInstance(db, obligation, id, to, expected, who, now).Success? {
      var i := db.instances[id];
      InstanceRowAdmissible(db, id, MovedInstance(i, to, now),
                            InstanceEvent(id, who.subject, Some(i.status), Some(to), MoveInstanceChange(i)));
    }
  }

  lemma AddsInstancesAdmissible(db: Database, db': Database)
    requires AddsInstances(db, db')
    ensures Admissible(db, db')
  {
  }

  lemma GenerateAdmissible(db: Database, id: Id, windowStart: Time, windowEnd: Time, actor: string)
    requires forall i :: i in db.instances ==> i < db.nextId
    requires Materialize(db, id, windowStart, windowEnd, actor).Success?
    ensures Admissible(db, Materialize(db, id, windowStart, windowEnd, actor).value.0)
  {
    hide Admissible, Materialize, AddsInstances;
    MaterializeNewAmong(db, id, windowStart, windowEnd, actor);
    AddsInstancesAdmissible(db, Materialize(db, id, windowStart, windowEnd, actor).value.0);
  }

  // Alerts

  lemma AlertCommandAdmissible(db: Database, id: Id, expected: nat, member: Id, subject: string,
                               roles: set<Recipient>, mayManage: bool, now: Time)
    ensures Admissible(db, After(db, AcknowledgeAlert(db, id, expected, member, subject, roles, mayManage, now)))
  {
    hide Admissible;
    Unchanged(db);
    if AcknowledgeAlert(db, id, expected, member, subject, roles, mayManage, now).Success? {
      var a := db.alerts[id];
      var a' := a.(status := AlertAcknowledged, acknowledgedAt := Some(now),
                   acknowledgedBy := Some(subject), revision := a.revision + 1);
      if !a.status.AlertAcknowledged? {
        assert AlertTrigger(a, a');
        AlertPhaseAdmissible(db, RecordAlert(db, id, a', AckRecorded, subject));
      }
    }
  }

  lemma {:induction false} CancelAllLogs(db: Database, rows: seq<Id>, actor: string)
    requires forall i :: 0 <= i < |rows| ==> rows[i] in db.alerts
    ensures db.events <= CancelAll(db, rows, actor).events
    ensures db.instanceEvents <= CancelAll(db, rows, actor).instanceEvents
  {
    if rows != [] {
      CancelAllLogs(db, rows[..|rows| - 1], actor);
    }
  }

  lemma {:induction false} ReadyAllLogs(db: Database, rows: seq<Id>, now: Time, actor: string)
    requires forall i :: 0 <= i < |rows| ==> rows[i] in db.alerts
    ensures db.events <= ReadyAll(db, rows, now, actor).events
    ensures db.instanceEvents <= ReadyAll(db, rows, now, actor).instanceEvents
    ensures db.outbox <= ReadyAll(db, rows, now, actor).outbox
  {
    if rows != [] {
      ReadyAllLogs(db, rows[..|rows| - 1], now, actor);
    }
  }

  /** A phase that moves some scheduled or ready alerts and appends to the logs. */
  lemma AlertPhaseAdmissible(db: Database, db': Database)
    requires SameWork(db', db)
    requires db.events <= db'.events && db.instanceEvents <= db'.instanceEvents && db.outbox <= db'.outbox
    requires forall a :: a in db.alerts ==>
               a in db'.alerts && (db'.alerts[a] == db.alerts[a] || AlertTrigger(db.alerts[a], db'.alerts[a]))
    ensures Admissible(db, db')
  {
  }

  lemma CancelPhaseAdmissible(db: Database, rows: seq<Id>, lockedRows: set<Id>, actor: string)
    requires CancelQuery(db, rows, lockedRows)
    requires forall i :: 0 <= i < |rows| ==> rows[i] in db.alerts
    ensures Admissible(db, CancelAll(db, rows, actor))
  {
    hide Admissible, CancelAll;
    CancelAllRows(db, rows, actor);
    CancelAllLogs(db, rows, actor);
    AlertPhaseAdmissible(db, CancelAll(db, rows, actor));
  }

  lemma ReadyPhaseAdmissible(db: Database, rows: seq<Id>, lockedRows: set<Id>, now: Time, actor: string)
    requires Inv(db)
    requires DueQuery(db, now, rows, lockedRows)
    ensures Admissible(db, ReadyAll(db, rows, now, actor))
  {
    hide Admissible, ReadyAll, Inv;
    ReadyAllRows(db, rows, now, actor);
    ReadyAllLogs(db, rows, now, actor);
    AlertPhaseAdmissible(db, ReadyAll(db, rows, now, actor));
  }

  lemma SchedulePhaseAdmissible(db: Database, specs: seq<AlertSpec>)
    requires forall a :: a in db.alerts ==> a < db.nextId
    ensures Admissible(db, AddAlerts(db, specs))
  {
    hide AddAlerts;
    AddAlertsRows(db, specs);
  }

  lemma Counters(db: Database)
    requires Inv(db)
    ensures forall i :: i in db.instances ==> i < db.nextId
    ensures forall a :: a in db.alerts ==> a < db.nextId
  {
  }

  /** Each phase of a cycle passes every trigger, on every row it writes. */
  lemma CycleAdmissible(db: Database, call: CycleCall, locks: Locks, rows: CycleRows, trace: CycleTrace)
    requires Inv(db)
    requires CycleRuns(db, call, locks, rows, trace)
    ensures Admissible(db, trace.materialized)
    ensures Admissible(trace.materialized, trace.cancelled)
    ensures Admissible(trace.cancelled, trace.scheduled)
    ensures Admissible(trace.scheduled, trace.activated)
  {
    hide Inv, Admissible, AddsInstances, MaterializeAll, CancelAll, AddAlerts, ReadyAll;
    hide CancelQuery, ScheduleQuery, DueQuery, ObligationSpecs, InstanceSpecs;
    CycleKeeps(db, call, locks, rows, trace);
    Counters(db);
    MaterializeAllRows(db, rows.recurring, call.WindowStart(), call.HorizonEnd(), call.actor);
    AddsInstancesAdmissible(db, trace.materialized);
    CancelPhaseAdmissible(trace.materialized, rows.cancellable, locks.cancelling, call.actor);
    Counters(trace.cancelled);
    SchedulePhaseAdmissible(trace.cancelled,
      ObligationSpecs(trace.cancelled, rows.obligations) + InstanceSpecs(trace.cancelled, rows.instances));
    ReadyPhaseAdmissible(trace.scheduled, rows.due, locks.activating, call.now, call.actor);
  }

  /** The transactions' row versions in the order the database sees them: a cycle writes in four
      phases, any other command at once. */
  ghost function Versions(db: Database, c: Command, db': Database): seq<Database> {
    match c
    case RunCycle(_, _, _, trace) => [db, trace.materialized, trace.cancelled, trace.scheduled, db']
    case _ => [db, db']
  }

  ghost predicate AllAdmissible(versions: seq<Database>) {
    forall i :: 0 <= i < |versions| - 1 ==> Admissible(versions[i], versions[i + 1])
  }

  lemma EnvironmentAdmissible(db: Database, facts: map<Id, Fact>, members: map<Id, Member>)
    ensures Admissible(db, db.(facts := facts, members := members))
  {
  }

  /** Every command's row changes are allowed by the triggers, and only move rows forward. */
  lemma NextAdmissible(db: Database, c: Command, db': Database)
    requires Inv(db)
    requires Next(db, c, db')
    ensures AllAdmissible(Versions(db, c, db'))
  {
    hide Inv, Admissible, CreateFromFact, Assign, Workflow.Acknowledge, Transition, SubmitEvidence, ReviewEvidence;
    hide Materialize, TransitionInstance, AcknowledgeAlert, CycleRuns;
    Unchanged(db);
    match c {
      case Create(fact, request, actor) =>
        if CreateFromFact(db, fact, request, actor).Success? { CreateAdmissible(db, fact, request, actor); }
      case SetOwner(id, owner, expected, actor) =>
        AssignAdmissible(db, id, owner, expected, actor);
      case Ack(id, expected, who, now) => AcknowledgeAdmissible(db, id, expected, who, now);
      case Move(id, to, expected, who, now) => TransitionAdmissible(db, id, to, expected, who, now);
      case Submit(id, expected, who, instance, evidenceType, sha256) =>
        if SubmitEvidence(db, id, expected, who, instance, evidenceType, sha256).Success? {
          SubmitAdmissible(db, id, expected, who, instance, evidenceType, sha256);
        }
      case Review(id, e, decision, expected, who, note, now) =>
        ReviewAdmissible(db, id, e, decision, expected, who, note, now);
      case Generate(id, windowStart, windowEnd, actor) =>
        Counters(db);
        if Materialize(db, id, windowStart, windowEnd, actor).Success? {
          GenerateAdmissible(db, id, windowStart, windowEnd, actor);
        }
      case MoveInstance(obligation, id, to, expected, who, now) =>
        MoveInstanceAdmissible(db, obligation, id, to, expected, who, now);
      case AcknowledgeAlertOf(id, expected, member, subject, roles, mayManage, now) =>
        AlertCommandAdmissible(db, id, expected, member, subject, roles, mayManage, now);
      case RunCycle(call, locks, rows, trace) => CycleAdmissible(db, call, locks, rows, trace);
      case Environment(facts, members) => EnvironmentAdmissible(db, facts, members);
      case RolledBack =>
    }
  }

  lemma AdmissibleEvolves(a: Database, b: Database)
    requires Admissible(a, b)
    ensures Evolves(a, b)
  {
  }

  lemma NextEvolves(db: Database, c: Command, db': Database)
    requires Inv(db)
    requires Next(db, c, db')
    ensures Evolves(db, db')
  {
    hide Inv, Admissible, Evolves, Next;
    NextAdmissible(db, c, db');
    var v := Versions(db, c, db');
    if c.RunCycle? {
      assert Admissible(v[0], v[1]) && Admissible(v[1], v[2]) && Admissible(v[2], v[3]) && Admissible(v[3], v[4]);
      AdmissibleEvolves(v[0], v[1]);
      AdmissibleEvolves(v[1], v[2]);
      AdmissibleEvolves(v[2], v[3]);
      AdmissibleEvolves(v[3], v[4]);
      EvolvesTransitive(v[0], v[1], v[2]);
      EvolvesTransitive(v[0], v[2], v[3]);
      EvolvesTransitive(v[0], v[3], v[4]);
    } else {
      assert Admissible(v[0], v[1]);
      AdmissibleEvolves(db, db');
    }
  }

  lemma EvolvesReflexive(db: Database)
    ensures Evolves(db, db)
  {
  }

  /** Between any two states of a run the tables only evolve. */
  lemma {:induction false} RunEvolves(states: seq<Database>, commands: seq<Command>, m: nat, n: nat)
    requires IsRun(states, commands)
    requires m <= n < |states|
    ensures Evolves(states[m], states[n])
  {
    hide Inv, Next, Evolves;
    if m == n {
      EvolvesReflexive(states[m]);
    } else {
      RunEvolves(states, commands, m, n - 1);
      RunInv(states, commands, n - 1);
      NextEvolves(states[n - 1], commands[n - 1], states[n]);
      EvolvesTransitive(states[m], states[n - 1], states[n]);
    }
  }

  /** Optimistic locking is sound: if a row still carries the revision a client read, in any later
      state, the row is exactly what the client read. */
  lemma RevisionNamesContent(states: seq<Database>, commands: seq<Command>, m: nat, n: nat, id: Id)
    requires IsRun(states, commands)
    requires m <= n < |states| && id in states[m].obligations
    ensures id in states[n].obligations
    ensures states[n].obligations[id].revision == states[m].obligations[id].revision ==>
              states[n].obligations[id] == states[m].obligations[id]
    ensures states[m].obligations[id].status.Superseded? ==> states[n].obligations[id].status.Superseded?
  {
    hide IsRun;
    RunEvolves(states, commands, m, n);
  }

  /** Append-only history: what a log or the outbox said once it says for ever. */
  lemma HistoryIsPrefix(states: seq<Database>, commands: seq<Command>, m: nat, n: nat)
    requires IsRun(states, commands)
    requires m <= n < |states|
    ensures states[m].events <= states[n].events
    ensures states[m].instanceEvents <= states[n].instanceEvents
    ensures states[m].outbox <= states[n].outbox
  {
    hide IsRun;
    RunEvolves(states, commands, m, n);
  }
}
