/** The obligation service: each method changes the session's tables as its specification says. */
module ObligationServices {
  import opened Common
  import opened EscalationPolicy
  import opened Tables
  import opened Workflow
  import opened Invariants
  import opened DatabaseSession

  /** The query by source fact finds nothing exactly when no obligation has it. */
  lemma NoneSelected(db: Database, fact: Id, existing: set<Id>)
    requires existing == set id | id in db.obligations && db.obligations[id].sourceFact == fact
    ensures existing == {} <==> !HasObligationFor(db, fact)
  {
    if id :| id in db.obligations && db.obligations[id].sourceFact == fact {
      assert id in existing;
    }
  }

  lemma NoArtifactSelected(db: Database, id: Id, instance: Option<Id>, sha256: string, existing: set<Id>)
    requires existing == set e | e in db.evidence && SameArtifact(db.evidence[e], id, instance, sha256)
    ensures existing == {} <==> !HasArtifact(db, id, instance, sha256)
  {
    if e :| e in db.evidence && SameArtifact(db.evidence[e], id, instance, sha256) {
      assert e in existing;
    }
  }

  class ObligationService {
    const session: Session

    constructor (session: Session)
      ensures this.session == session
    {
      this.session := session;
    }

    method Locked(id: Id, expected: nat) returns (r: Result<Obligation, Error>)
      ensures r.Success? <==> id in session.obligations && session.obligations[id].revision == expected
      ensures r.Success? ==> r.value == session.obligations[id]
      ensures r.Failure? && r.error == NotFound <==> id !in session.obligations
      ensures r.Failure? && id in session.obligations ==>
                r.error == StaleRevision(expected, session.obligations[id].revision)
    {
      if id !in session.obligations {
        return Failure(NotFound);
      }
      var o := session.obligations[id];
      if o.revision != expected {
        return Failure(StaleRevision(expected, o.revision));
      }
      return Success(o);
    }

    method ActiveMember(member: Option<Id>) returns (r: Result<Option<string>, Error>)
      ensures r == Workflow.ActiveMember(session.Tables(), member)
    {
      if member.None? {
        return Success(None);
      }
      if member.value !in session.members || !session.members[member.value].active {
        return Failure(OwnerNotActive);
      }
      return Success(Some(session.members[member.value].subject));
    }

    /** The row is stored and its event appended. */
    method RecordEvent(id: Id, o: Obligation, from: Option<Status>, actor: string, change: Change)
      modifies session
      ensures session.Tables() == Record(old(session.Tables()), id, o, from, actor, change)
    {
      session.obligations := session.obligations[id := o];
      session.events := session.events + [ObligationEvent(id, actor, from, Some(o.status), change)];
    }

    method CreateFromFact(fact: Id, request: CreateRequest, actor: string) returns (r: Result<(Id, bool), Error>)
      requires OnePerFact(session.obligations)
      modifies session
      ensures var spec := Workflow.CreateFromFact(old(session.Tables()), fact, request, actor);
              if spec.Success? then
                r == Success((spec.value.1, spec.value.2)) && session.Tables() == spec.value.0
              else
                r == Failure(spec.error) && session.Tables() == old(session.Tables())
    {
      if fact !in session.facts {
        return Failure(NotFound);
      }
      if !session.facts[fact].verified {
        return Failure(FactNotVerified);
      }
      var existing := set id | id in session.obligations && session.obligations[id].sourceFact == fact;
      if existing != {} {
        var id :| id in existing;
        return Success((id, false));
      }
      NoneSelected(session.Tables(), fact, existing);
      var subject :- ActiveMember(request.owner);
      var policy := NormalizeEscalationPolicy(request.policy);
      if policy.Failure? {
        return Failure(PolicyRefused);
      }
      var o := Obligation(fact, if request.owner.Some? then Active else Unassigned, request.owner, subject,
                          request.dueAt, request.recurrence, request.leadTimeDays, policy.value,
                          request.requirements, session.facts[fact].monetaryValue, None, None, 1);
      var id := session.nextId;
      session.nextId := id + 1;
      RecordEvent(id, o, None, actor, Created(request.owner));
      return Success((id, true));
    }

    method Assign(id: Id, owner: Option<Id>, expected: nat, actor: string) returns (r: Result<Obligation, Error>)
      modifies session
      ensures var spec := Workflow.Assign(old(session.Tables()), id, owner, expected, actor);
              if spec.Success? then
                session.Tables() == spec.value && r == Success(spec.value.obligations[id])
              else
                r == Failure(spec.error) && session.Tables() == old(session.Tables())
    {
      var o :- Locked(id, expected);
      if IsTerminal(o.status) {
        return Failure(InvalidState(o.status));
      }
      var subject :- ActiveMember(owner);
      var previousOwner, previousStatus := o.owner, o.status;
      o := o.(owner := owner, ownerSubject := subject);
      o := o.(acknowledgedAt := None);
      o := o.(status := if owner.Some? then Active else Unassigned);
      o := o.(revision := o.revision + 1);
      RecordEvent(id, o, Some(previousStatus), actor, OwnerSet(previousOwner, owner, o.revision));
      return Success(o);
    }

    method Acknowledge(id: Id, expected: nat, actor: Actor, now: Time) returns (r: Result<Obligation, Error>)
      modifies session
      ensures var spec := Workflow.Acknowledge(old(session.Tables()), id, expected, actor, now);
              if spec.Success? then
                session.Tables() == spec.value && r == Success(spec.value.obligations[id])
              else
                r == Failure(spec.error) && session.Tables() == old(session.Tables())
    {
      var o :- Locked(id, expected);
      if o.owner != Some(actor.member) {
        return Failure(AccessDenied);
      }
      if !o.status.Active? {
        return Failure(InvalidState(o.status));
      }
      if o.acknowledgedAt.Some? {
        return Success(o);
      }
      o := o.(acknowledgedAt := Some(now));
      o := o.(revision := o.revision + 1);
      RecordEvent(id, o, Some(o.status), actor.subject, Change.Acknowledged(o.revision));
      return Success(o);
    }

    method Transition(id: Id, to: Status, expected: nat, actor: Actor, now: Time) returns (r: Result<Obligation, Error>)
      modifies session
      ensures var spec := Workflow.Transition(old(session.Tables()), id, to, expected, actor, now);
              if spec.Success? then
                session.Tables() == spec.value && r == Success(spec.value.obligations[id])
              else
                r == Failure(spec.error) && session.Tables() == old(session.Tables())
    {
      var o :- Locked(id, expected);
      if o.owner != Some(actor.member) && !actor.mayManage {
        return Failure(AccessDenied);
      }
      if to !in Transitions(o.status) {
        return Failure(InvalidTransition(o.status, to));
      }
      if to.Completed? {
        var _ :- ValidateCompletion(o.requirements, session.evidence, OfObligation(id));
      }
      var previousStatus := o.status;
      o := o.(status := to);
      o := o.(completedAt := if to.Completed? then Some(now) else None);
      o := o.(revision := o.revision + 1);
      RecordEvent(id, o, Some(previousStatus), actor.subject,
        if previousStatus.Completed? || previousStatus.Waived? then Reopened(o.revision) else StatusChanged(o.revision));
      return Success(o);
    }

    method SubmitEvidence(id: Id, expected: nat, actor: Actor, instance: Option<Id>, evidenceType: string,
                          sha256: string)
      returns (r: Result<(Id, bool), Error>)
      requires OnePerHash(session.evidence)
      modifies session
      ensures var spec := Workflow.SubmitEvidence(old(session.Tables()), id, expected, actor, instance, evidenceType, sha256);
              if spec.Success? then
                r == Success((spec.value.1, spec.value.2)) && session.Tables() == spec.value.0
              else
                r == Failure(spec.error) && session.Tables() == old(session.Tables())
    {
      var o :- Locked(id, expected);
      if o.owner != Some(actor.member) && !actor.mayManage {
        return Failure(AccessDenied);
      }
      if o.status.Waived? || o.status.Superseded? {
        return Failure(InvalidState(o.status));
      }
      if instance.Some? && (instance.value !in session.instances || session.instances[instance.value].obligation != id) {
        return Failure(NotFound);
      }
      var existing := set e | e in session.evidence && SameArtifact(session.evidence[e], id, instance, sha256);
      if existing != {} {
        var e :| e in existing;
        return Success((e, false));
      }
      NoArtifactSelected(session.Tables(), id, instance, sha256, existing);
      var e := session.nextId;
      session.nextId := e + 1;
      session.evidence := session.evidence[e :=
        Evidence(id, instance, evidenceType, sha256, actor.member, Pending, None, None, None)];
      o := o.(revision := o.revision + 1);
      RecordEvent(id, o, Some(o.status), actor.subject, EvidenceSubmitted(e, o.revision));
      return Success((e, true));
    }

    method ReviewEvidence(id: Id, e: Id, decision: Decision, expected: nat, reviewer: Actor, note: Option<string>,
                          now: Time)
      returns (r: Result<Evidence, Error>)
      modifies session
      ensures var spec := Workflow.ReviewEvidence(old(session.Tables()), id, e, decision, expected, reviewer, note, now);
              if spec.Success? then
                session.Tables() == spec.value && r == Success(spec.value.evidence[e])
              else
                r == Failure(spec.error) && session.Tables() == old(session.Tables())
    {
      var o :- Locked(id, expected);
      if e !in session.evidence || session.evidence[e].obligation != id {
        return Failure(NotFound);
      }
      var artifact := session.evidence[e];
      if !artifact.status.Pending? {
        return Failure(DecisionFinal);
      }
      if decision.OtherDecision? {
        return Failure(UnknownDecision);
      }
      if decision.Accept? {
        var independent :- RequiresIndependence(o.requirements, o.monetaryValue);
        if independent && artifact.submittedBy == reviewer.member {
          return Failure(AccessDenied);
        }
      }
      artifact := artifact.(status := if decision.Accept? then Accepted else Rejected);
      artifact := artifact.(reviewedBy := Some(reviewer.member), reviewedAt := Some(now), note := note);
      session.evidence := session.evidence[e := artifact];
      o := o.(revision := o.revision + 1);
      RecordEvent(id, o, Some(o.status), reviewer.subject, EvidenceDecided(e, artifact.status, o.revision));
      return Success(artifact);
    }
  }
}
