/** What each obligation operation does to the tables, as a function of the tables before it. */
module Workflow {
  import opened Common
  import opened EscalationPolicy
  import opened Tables

  function Transitions(s: Status): set<Status> {
    match s
    case Active => {Blocked, Completed, Waived, Superseded}
    case Blocked => {Active, Completed, Waived, Superseded}
    case Completed => {Active, Superseded}
    case Waived => {Active, Superseded}
    case _ => {}
  }

  function InstanceTransitions(s: Status): set<Status> {
    match s
    case Scheduled => {Active, Blocked, Completed, Waived, Superseded}
    case _ => Transitions(s)
  }

  /** The caller of an owner-scoped operation. */
  datatype Actor = Actor(member: Id, subject: string, mayManage: bool)

  datatype CreateRequest = CreateRequest(
    owner: Option<Id>,
    dueAt: Option<Time>,
    recurrence: Option<Recurrence>,
    leadTimeDays: nat,
    policy: RawPolicy,
    requirements: Requirements)

  function Locked(db: Database, id: Id, expected: nat): Result<Obligation, Error> {
    if id !in db.obligations then Failure(NotFound)
    else if db.obligations[id].revision != expected then
      Failure(StaleRevision(expected, db.obligations[id].revision))
    else Success(db.obligations[id])
  }

  /** The subject of an active member, or nothing when no member is named. */
  function ActiveMember(db: Database, member: Option<Id>): Result<Option<string>, Error> {
    if member.None? then Success(None)
    else if member.value in db.members && db.members[member.value].active then
      Success(Some(db.members[member.value].subject))
    else Failure(OwnerNotActive)
  }

  /** A row update together with the event that records it. */
  function Record(db: Database, id: Id, o: Obligation, from: Option<Status>, actor: string, change: Change): Database {
    db.(obligations := db.obligations[id := o],
        events := db.events + [ObligationEvent(id, actor, from, Some(o.status), change)])
  }

  predicate HasObligationFor(db: Database, fact: Id) {
    exists id :: id in db.obligations && db.obligations[id].sourceFact == fact
  }

  function NewObligation(db: Database, fact: Id, request: CreateRequest, subject: Option<string>): Obligation
    requires fact in db.facts && Acceptable(request.policy)
  {
    Obligation(
      fact,
      if request.owner.Some? then Active else Unassigned,
      request.owner, subject, request.dueAt, request.recurrence, request.leadTimeDays,
      CanonicalOf(request.policy), request.requirements, db.facts[fact].monetaryValue,
      None, None, 1)
  }

  /** `create_from_fact`: the tables afterwards, the obligation, and whether it is new. */
  ghost function CreateFromFact(db: Database, fact: Id, request: CreateRequest, actor: string)
    : Result<(Database, Id, bool), Error>
  {
    if fact !in db.facts then Failure(NotFound)
    else if !db.facts[fact].verified then Failure(FactNotVerified)
    else if HasObligationFor(db, fact) then
      var id :| id in db.obligations && db.obligations[id].sourceFact == fact;
      Success((db, id, false))
    else
      var subject :- ActiveMember(db, request.owner);
      if !Acceptable(request.policy) then Failure(PolicyRefused)
      else
        var o := NewObligation(db, fact, request, subject);
        var db' := Record(db, db.nextId, o, None, actor, Created(request.owner));
        Success((db'.(nextId := db.nextId + 1), db.nextId, true))
  }

  /** `assign` */
  function Assign(db: Database, id: Id, owner: Option<Id>, expected: nat, actor: string): Result<Database, Error> {
    var o :- Locked(db, id, expected);
    if IsTerminal(o.status) then Failure(InvalidState(o.status))
    else
      var subject :- ActiveMember(db, owner);
      var o' := o.(owner := owner, ownerSubject := subject, acknowledgedAt := None,
                   status := if owner.Some? then Active else Unassigned,
                   revision := o.revision + 1);
      Success(Record(db, id, o', Some(o.status), actor, OwnerSet(o.owner, owner, o'.revision)))
  }

  /** `acknowledge`, of an obligation */
  function Acknowledge(db: Database, id: Id, expected: nat, actor: Actor, now: Time): Result<Database, Error> {
    var o :- Locked(db, id, expected);
    if o.owner != Some(actor.member) then Failure(AccessDenied)
    else if !o.status.Active? then Failure(InvalidState(o.status))
    else if o.acknowledgedAt.Some? then Success(db)
    else
      var o' := o.(acknowledgedAt := Some(now), revision := o.revision + 1);
      Success(Record(db, id, o', Some(o.status), actor.subject, Change.Acknowledged(o'.revision)))
  }

  /** `transition`, of an obligation */
  function Transition(db: Database, id: Id, to: Status, expected: nat, actor: Actor,
                      now: Time): Result<Database, Error> {
    var o :- Locked(db, id, expected);
    if o.owner != Some(actor.member) && !actor.mayManage then Failure(AccessDenied)
    else if to !in Transitions(o.status) then Failure(InvalidTransition(o.status, to))
    else
      var _ :- if to.Completed? then ValidateCompletion(o.requirements, db.evidence, OfObligation(id)) else Success(());
      var o' := o.(status := to, completedAt := if to.Completed? then Some(now) else None,
                   revision := o.revision + 1);
      var change := if o.status.Completed? || o.status.Waived? then Reopened(o'.revision)
                    else StatusChanged(o'.revision);
      Success(Record(db, id, o', Some(o.status), actor.subject, change))
  }

  predicate SameArtifact(e: Evidence, obligation: Id, instance: Option<Id>, sha256: string) {
    e.obligation == obligation && e.instance == instance && e.sha256 == sha256
  }

  predicate HasArtifact(db: Database, obligation: Id, instance: Option<Id>, sha256: string) {
    exists e :: e in db.evidence && SameArtifact(db.evidence[e], obligation, instance, sha256)
  }

  /** `submit_evidence`: the tables afterwards, the artifact, and whether it is new. */
  ghost function SubmitEvidence(db: Database, id: Id, expected: nat, actor: Actor,
                                instance: Option<Id>, evidenceType: string, sha256: string)
    : Result<(Database, Id, bool), Error>
  {
    var o :- Locked(db, id, expected);
    if o.owner != Some(actor.member) && !actor.mayManage then Failure(AccessDenied)
    else if o.status.Waived? || o.status.Superseded? then Failure(InvalidState(o.status))
    else if instance.Some? && !(instance.value in db.instances && db.instances[instance.value].obligation == id) then
      Failure(NotFound)
    else if HasArtifact(db, id, instance, sha256) then
      var e :| e in db.evidence && SameArtifact(db.evidence[e], id, instance, sha256);
      Success((db, e, false))
    else
      var e := db.nextId;
      var row := Evidence(id, instance, evidenceType, sha256, actor.member, Pending, None, None, None);
      var o' := o.(revision := o.revision + 1);
      var db' := Record(db, id, o', Some(o.status), actor.subject, EvidenceSubmitted(e, o'.revision));
      Success((db'.(evidence := db.evidence[e := row], nextId := e + 1), e, true))
  }

  datatype Decision = Accept | Reject | OtherDecision

  /** `review_evidence` */
  function ReviewEvidence(db: Database, id: Id, e: Id, decision: Decision, expected: nat,
                          reviewer: Actor, note: Option<string>, now: Time): Result<Database, Error>
  {
    var o :- Locked(db, id, expected);
    if e !in db.evidence || db.evidence[e].obligation != id then Failure(NotFound)
    else if !db.evidence[e].status.Pending? then Failure(DecisionFinal)
    else if decision.OtherDecision? then Failure(UnknownDecision)
    else
      var independent :- if decision.Accept? then RequiresIndependence(o.requirements, o.monetaryValue) else Success(false);
      if independent && db.evidence[e].submittedBy == reviewer.member then Failure(AccessDenied)
      else
        var status := if decision.Accept? then Accepted else Rejected;
        var row := db.evidence[e].(status := status, reviewedBy := Some(reviewer.member),
                                   reviewedAt := Some(now), note := note);
        var o' := o.(revision := o.revision + 1);
        var db' := Record(db, id, o', Some(o.status), reviewer.subject, EvidenceDecided(e, status, o'.revision));
        Success(db'.(evidence := db.evidence[e := row]))
  }

  /** `transition`, of an occurrence */
  function TransitionInstance(db: Database, obligation: Id, id: Id, to: Status, expected: nat,
                              actor: Actor, now: Time): Result<Database, Error>
  {
    if id !in db.instances || db.instances[id].obligation != obligation then Failure(NotFound)
    else
      var i := db.instances[id];
      if i.revision != expected then Failure(StaleRevision(expected, i.revision))
      else if i.owner != Some(actor.member) && !actor.mayManage then Failure(AccessDenied)
      else if to !in InstanceTransitions(i.status) then Failure(InvalidTransition(i.status, to))
      else
        var _ :- if to.Completed? then ValidateCompletion(i.requirements, db.evidence, OfInstance(id)) else Success(());
        var i' := i.(status := to, completedAt := if to.Completed? then Some(now) else None,
                     revision := i.revision + 1);
        var change := if i.status.Completed? || i.status.Waived? then InstanceReopened(i'.revision)
                      else InstanceStatusChanged(i'.revision);
        Success(db.(instances := db.instances[id := i'],
                    instanceEvents := db.instanceEvents +
                      [InstanceEvent(id, actor.subject, Some(i.status), Some(to), change)]))
  }
}
