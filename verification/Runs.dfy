/** Every run of the obligation operations: commands, steps, and what holds after any of them. */
module Runs {
  import opened Common
  import opened EscalationPolicy
  import opened Tables
  import opened Workflow
  import opened Occurrences
  import opened Alerts
  import opened EventLog
  import opened Invariants
  import opened Preservation
  import opened CyclePhases

  /** One transaction. `Environment` is the rest of the system: fact review and membership. */
  datatype Command =
    | Create(fact: Id, request: CreateRequest, actor: string)
    | SetOwner(id: Id, owner: Option<Id>, expected: nat, actor: string)
    | Ack(id: Id, expected: nat, who: Actor, now: Time)
    | Move(id: Id, to: Status, expected: nat, who: Actor, now: Time)
    | Submit(id: Id, expected: nat, who: Actor, instance: Option<Id>, evidenceType: string, sha256: string)
    | Review(id: Id, evidence: Id, decision: Decision, expected: nat, who: Actor, note: Option<string>, now: Time)
    | Generate(id: Id, windowStart: Time, windowEnd: Time, actor: string)
    | MoveInstance(obligation: Id, id: Id, to: Status, expected: nat, who: Actor, now: Time)
    | AcknowledgeAlertOf(id: Id, expected: nat, member: Id, subject: string, roles: set<Recipient>, mayManage: bool, now: Time)
    | RunCycle(call: CycleCall, locks: Locks, rows: CycleRows, trace: CycleTrace)
    | Environment(facts: map<Id, Fact>, members: map<Id, Member>)
    | RolledBack

  function After(db: Database, r: Result<Database, Error>): Database {
    if r.Success? then r.value else db
  }

  /** A refused command is rolled back; an accepted one leaves exactly its operation's tables. */
  ghost predicate Next(db: Database, c: Command, db': Database) {
    match c
    case Create(fact, request, actor) =>
      var r := CreateFromFact(db, fact, request, actor);
      db' == if r.Success? then r.value.0 else db
    case SetOwner(id, owner, expected, actor) => db' == After(db, Assign(db, id, owner, expected, actor))
    case Ack(id, expected, who, now) => db' == After(db, Workflow.Acknowledge(db, id, expected, who, now))
    case Move(id, to, expected, who, now) => db' == After(db, Transition(db, id, to, expected, who, now))
    case Submit(id, expected, who, instance, evidenceType, sha256) =>
      var r := SubmitEvidence(db, id, expected, who, instance, evidenceType, sha256);
      db' == if r.Success? then r.value.0 else db
    case Review(id, e, decision, expected, who, note, now) =>
      db' == After(db, ReviewEvidence(db, id, e, decision, expected, who, note, now))
    case Generate(id, windowStart, windowEnd, actor) =>
      var r := Materialize(db, id, windowStart, windowEnd, actor);
      db' == if r.Success? then r.value.0 else db
    case MoveInstance(obligation, id, to, expected, who, now) =>
      db' == After(db, TransitionInstance(db, obligation, id, to, expected, who, now))
    case AcknowledgeAlertOf(id, expected, member, subject, roles, mayManage, now) =>
      db' == After(db, AcknowledgeAlert(db, id, expected, member, subject, roles, mayManage, now))
    case RunCycle(call, locks, rows, trace) =>
      CycleRuns(db, call, locks, rows, trace) && db' == trace.activated
    case Environment(facts, members) => db' == db.(facts := facts, members := members)
    case RolledBack => db' == db
  }

  // Each operation keeps the invariant

  lemma CreateKeeps(db: Database, fact: Id, request: CreateRequest, actor: string)
    requires Inv(db)
    requires CreateFromFact(db, fact, request, actor).Success?
    ensures Inv(CreateFromFact(db, fact, request, actor).value.0)
  {
    hide Inv, Acceptable, CanonicalOf, Canonical;
    if !HasObligationFor(db, fact) {
      var subject := ActiveMember(db, request.owner).value;
      CanonicalOfIsCanonical(request.policy);
      CreationKeeps(db, NewObligation(db, fact, request, subject), actor);
    }
  }

  /** A row the invariant vouches for. */
  lemma RowOf(db: Database, id: Id)
    requires Inv(db) && id in db.obligations
    ensures ObligationOk(db.obligations[id])
    ensures db.obligations[id].status.Completed? ==>
              Evidenced(db.obligations[id].requirements, db.evidence, OfObligation(id))
  {
  }

  lemma InstanceRowOf(db: Database, id: Id)
    requires Inv(db) && id in db.instances
    ensures db.instances[id].obligation in db.obligations
    ensures InstanceOk(db.instances[id], db.obligations[db.instances[id].obligation])
  {
  }

  /** What `RecordKeeps` asks of a row's change and the event that records it. */
  ghost predicate GoodStep(o: Obligation, o': Obligation, change: Change) {
    && ObligationOk(o') && SameTerms(o', o) && o'.revision == o.revision + 1
    && !change.AlertChanged?
    && forall id: Id, actor: string ::
         Apply(Live(ProjectionOf(o)), ObligationEvent(id, actor, Some(o.status), Some(o'.status), change))
           == Live(ProjectionOf(o'))
  }

  lemma GoodStepKeeps(db: Database, id: Id, o: Obligation, actor: string, change: Change)
    requires Inv(db)
    requires id in db.obligations && GoodStep(db.obligations[id], o, change)
    requires o.status.Completed? ==> Evidenced(o.requirements, db.evidence, OfObligation(id))
    ensures Inv(Record(db, id, o, Some(db.obligations[id].status), actor, change))
  {
    hide Inv, Evidenced, ObligationOk, SameTerms;
    RecordKeeps(db, id, o, actor, change);
  }

  function Assigned(o: Obligation, owner: Option<Id>, subject: Option<string>): Obligation {
    o.(owner := owner, ownerSubject := subject, acknowledgedAt := None,
       status := if owner.Some? then Active else Unassigned, revision := o.revision + 1)
  }

  lemma AssignStep(o: Obligation, owner: Option<Id>, subject: Option<string>)
    requires ObligationOk(o) && !IsTerminal(o.status) && (owner.Some? <==> subject.Some?)
    ensures GoodStep(o, Assigned(o, owner, subject), OwnerSet(o.owner, owner, o.revision + 1))
  {
  }

  lemma AssignKeeps(db: Database, id: Id, owner: Option<Id>, expected: nat, actor: string)
    requires Inv(db)
    requires Assign(db, id, owner, expected, actor).Success?
    ensures Inv(Assign(db, id, owner, expected, actor).value)
  {
    hide Inv, Evidenced, ObligationOk, GoodStep;
    RowOf(db, id);
    var o := db.obligations[id];
    var subject := ActiveMember(db, owner).value;
    AssignStep(o, owner, subject);
    GoodStepKeeps(db, id, Assigned(o, owner, subject), actor, OwnerSet(o.owner, owner, o.revision + 1));
  }

  lemma AcknowledgeStep(o: Obligation, now: Time)
    requires ObligationOk(o) && o.status.Active? && o.acknowledgedAt.None?
    ensures GoodStep(o, o.(acknowledgedAt := Some(now), revision := o.revision + 1), Change.Acknowledged(o.revision + 1))
  {
  }

  lemma AcknowledgeKeeps(db: Database, id: Id, expected: nat, actor: Actor, now: Time)
    requires Inv(db)
    requires Workflow.Acknowledge(db, id, expected, actor, now).Success?
    ensures Inv(Workflow.Acknowledge(db, id, expected, actor, now).value)
  {
    hide Inv, Evidenced, ObligationOk, GoodStep;
    RowOf(db, id);
    var o := db.obligations[id];
    if o.acknowledgedAt.None? {
      AcknowledgeStep(o, now);
      GoodStepKeeps(db, id, o.(acknowledgedAt := Some(now), revision := o.revision + 1), actor.subject,
                    Change.Acknowledged(o.revision + 1));
    }
  }

  function Moved(o: Obligation, to: Status, now: Time): Obligation {
    o.(status := to, completedAt := if to.Completed? then Some(now) else None, revision := o.revision + 1)
  }

  function MoveChange(o: Obligation): Change {
    if o.status.Completed? || o.status.Waived? then Reopened(o.revision + 1) else StatusChanged(o.revision + 1)
  }

  lemma TransitionStep(o: Obligation, to: Status, now: Time)
    requires ObligationOk(o) && to in Transitions(o.status)
    ensures GoodStep(o, Moved(o, to, now), MoveChange(o))
  {
  }

  lemma TransitionKeeps(db: Database, id: Id, to: Status, expected: nat, actor: Actor, now: Time)
    requires Inv(db)
    requires Transition(db, id, to, expected, actor, now).Success?
    ensures Inv(Transition(db, id, to, expected, actor, now).value)
  {
    hide Inv, Evidenced, ObligationOk, GoodStep, ValidateCompletion;
    RowOf(db, id);
    var o := db.obligations[id];
    TransitionStep(o, to, now);
    GoodStepKeeps(db, id, Moved(o, to, now), actor.subject, MoveChange(o));
  }

  lemma EvidenceStep(o: Obligation, change: Change)
    requires ObligationOk(o)
    requires change.EvidenceSubmitted? || (change.EvidenceDecided? && !change.decision.Pending?)
    requires change.revision == o.revision + 1
    ensures GoodStep(o, o.(revision := o.revision + 1), change)
  {
  }

  lemma SubmitKeeps(db: Database, id: Id, expected: nat, actor: Actor, instance: Option<Id>, evidenceType: string,
                    sha256: string)
    requires Inv(db)
    requires SubmitEvidence(db, id, expected, actor, instance, evidenceType, sha256).Success?
    ensures Inv(SubmitEvidence(db, id, expected, actor, instance, evidenceType, sha256).value.0)
  {
    hide Inv, Evidenced, ObligationOk, GoodStep;
    RowOf(db, id);
    if !HasArtifact(db, id, instance, sha256) {
      var o := db.obligations[id];
      var change := EvidenceSubmitted(db.nextId, o.revision + 1);
      EvidenceStep(o, change);
      GoodStepKeeps(db, id, o.(revision := o.revision + 1), actor.subject, change);
      var recorded := Record(db, id, o.(revision := o.revision + 1), Some(o.status), actor.subject, change);
      ArtifactKeeps(recorded, Evidence(id, instance, evidenceType, sha256, actor.member, Pending, None, None, None));
    }
  }

  lemma DecisionOk(e: Evidence, parent: Obligation, decision: Decision, reviewer: Id, note: Option<string>, now: Time)
    requires !decision.OtherDecision?
    requires decision.Accept? ==>
               && RequiresIndependence(parent.requirements, parent.monetaryValue).Success?
               && (RequiresIndependence(parent.requirements, parent.monetaryValue).value ==> e.submittedBy != reviewer)
    ensures EvidenceOk(Decided(e, decision, reviewer, note, now), parent)
  {
  }

  function Decided(e: Evidence, decision: Decision, reviewer: Id, note: Option<string>, now: Time): Evidence {
    e.(status := if decision.Accept? then Accepted else Rejected, reviewedBy := Some(reviewer),
       reviewedAt := Some(now), note := note)
  }

  lemma ReviewKeeps(db: Database, id: Id, e: Id, decision: Decision, expected: nat,
                    reviewer: Actor, note: Option<string>, now: Time)
    requires Inv(db)
    requires ReviewEvidence(db, id, e, decision, expected, reviewer, note, now).Success?
    ensures Inv(ReviewEvidence(db, id, e, decision, expected, reviewer, note, now).value)
  {
    hide Inv, Evidenced, ObligationOk, GoodStep, EvidenceOk, RequiresIndependence;
    RowOf(db, id);
    var o := db.obligations[id];
    var o' := o.(revision := o.revision + 1);
    var row := Decided(db.evidence[e], decision, reviewer.member, note, now);
    var change := EvidenceDecided(e, row.status, o'.revision);
    EvidenceStep(o, change);
    GoodStepKeeps(db, id, o', reviewer.subject, change);
    DecisionOk(db.evidence[e], o', decision, reviewer.member, note, now);
    DecisionKeeps(Record(db, id, o', Some(o.status), reviewer.subject, change), e, row);
  }

  function MovedInstance(i: Instance, to: Status, now: Time): Instance {
    i.(status := to, completedAt := if to.Completed? then Some(now) else None, revision := i.revision + 1)
  }

  function MoveInstanceChange(i: Instance): InstanceChange {
    if i.status.Completed? || i.status.Waived? then InstanceReopened(i.revision + 1) else InstanceStatusChanged(i.revision + 1)
  }

  lemma InstanceStep(i: Instance, parent: Obligation, to: Status, now: Time, id: Id, actor: string)
    requires InstanceOk(i, parent) && to in InstanceTransitions(i.status)
    ensures InstanceOk(MovedInstance(i, to, now), parent)
    ensures ApplyInstance(Running(InstanceProjectionOf(i)), InstanceEvent(id, actor, Some(i.status), Some(to), MoveInstanceChange(i)))
              == Running(InstanceProjectionOf(MovedInstance(i, to, now)))
  {
  }

  lemma TransitionInstanceKeeps(db: Database, obligation: Id, id: Id, to: Status, expected: nat, actor: Actor,
                                now: Time)
    requires Inv(db)
    requires TransitionInstance(db, obligation, id, to, expected, actor, now).Success?
    ensures Inv(TransitionInstance(db, obligation, id, to, expected, actor, now).value)
  {
    hide Inv, Evidenced, InstanceOk, ApplyInstance, ValidateCompletion;
    InstanceRowOf(db, id);
    var i := db.instances[id];
    InstanceStep(i, db.obligations[i.obligation], to, now, id, actor.subject);
    InstanceStepKeeps(db, id, MovedInstance(i, to, now), actor.subject, MoveInstanceChange(i));
  }

  lemma EnvironmentKeeps(db: Database, facts: map<Id, Fact>, members: map<Id, Member>)
    requires Inv(db)
    ensures Inv(db.(facts := facts, members := members))
  {
  }

  /** Whatever the command and however its queries are answered, the invariant holds afterwards. */
  lemma NextKeeps(db: Database, c: Command, db': Database)
    requires Inv(db)
    requires Next(db, c, db')
    ensures Inv(db')
  {
    hide Inv, CreateFromFact, Assign, Workflow.Acknowledge, Transition, SubmitEvidence, ReviewEvidence;
    hide Materialize, TransitionInstance, AcknowledgeAlert, CycleRuns;
    match c {
      case Create(fact, request, actor) =>
        if CreateFromFact(db, fact, request, actor).Success? { CreateKeeps(db, fact, request, actor); }
      case SetOwner(id, owner, expected, actor) =>
        if Assign(db, id, owner, expected, actor).Success? { AssignKeeps(db, id, owner, expected, actor); }
      case Ack(id, expected, who, now) =>
        if Workflow.Acknowledge(db, id, expected, who, now).Success? { AcknowledgeKeeps(db, id, expected, who, now); }
      case Move(id, to, expected, who, now) =>
        if Transition(db, id, to, expected, who, now).Success? { TransitionKeeps(db, id, to, expected, who, now); }
      case Submit(id, expected, who, instance, evidenceType, sha256) =>
        if SubmitEvidence(db, id, expected, who, instance, evidenceType, sha256).Success? {
          SubmitKeeps(db, id, expected, who, instance, evidenceType, sha256);
        }
      case Review(id, e, decision, expected, who, note, now) =>
        if ReviewEvidence(db, id, e, decision, expected, who, note, now).Success? {
          ReviewKeeps(db, id, e, decision, expected, who, note, now);
        }
      case Generate(id, windowStart, windowEnd, actor) =>
        if Materialize(db, id, windowStart, windowEnd, actor).Success? {
          MaterializeKeeps(db, id, windowStart, windowEnd, actor);
        }
      case MoveInstance(obligation, id, to, expected, who, now) =>
        if TransitionInstance(db, obligation, id, to, expected, who, now).Success? {
          TransitionInstanceKeeps(db, obligation, id, to, expected, who, now);
        }
      case AcknowledgeAlertOf(id, expected, member, subject, roles, mayManage, now) =>
        if AcknowledgeAlert(db, id, expected, member, subject, roles, mayManage, now).Success? {
          AcknowledgeAlertKeeps(db, id, expected, member, subject, roles, mayManage, now);
        }
      case RunCycle(call, locks, rows, trace) => CycleKeeps(db, call, locks, rows, trace);
      case Environment(facts, members) => EnvironmentKeeps(db, facts, members);
      case RolledBack =>
    }
  }

  // Runs

  /** `states` is a run: it starts empty and each state follows from the one before. */
  ghost predicate IsRun(states: seq<Database>, commands: seq<Command>) {
    && |states| == |commands| + 1
    && states[0] == EmptyDatabase
    && forall i :: 0 <= i < |commands| ==> Next(states[i], commands[i], states[i + 1])
  }

  /** The invariant holds in every state of every run. */
  lemma {:induction false} RunInv(states: seq<Database>, commands: seq<Command>, n: nat)
    requires IsRun(states, commands)
    requires n < |states|
    ensures Inv(states[n])
  {
    hide Inv, Next;
    if n == 0 {
      EmptyInv();
    } else {
      RunInv(states, commands, n - 1);
      NextKeeps(states[n - 1], commands[n - 1], states[n]);
    }
  }
}
