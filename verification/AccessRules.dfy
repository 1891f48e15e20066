/** Who may do what, and what an operation that is allowed changes: the answers of the obligation
    operations on the stored fields. */
module AccessRules {
  import opened Common
  import opened Text
  import opened EscalationPolicy
  import opened Tables
  import opened Workflow
  import opened Alerts
  import opened EvidenceTerms

  /** Every change of status an obligation may be asked for. */
  const MOVES: set<(Status, Status)> := {
    (Active, Blocked), (Active, Completed), (Active, Waived), (Active, Superseded),
    (Blocked, Active), (Blocked, Completed), (Blocked, Waived), (Blocked, Superseded),
    (Completed, Active), (Completed, Superseded), (Waived, Active), (Waived, Superseded)}

  /** Every change an occurrence may be asked for. */
  const OCCURRENCE_MOVES: set<(Status, Status)> := MOVES + {
    (Scheduled, Active), (Scheduled, Blocked), (Scheduled, Completed), (Scheduled, Waived), (Scheduled, Superseded)}

  /** The owner, or someone who may manage the workflow. */
  predicate MayAct(owner: Option<Id>, actor: Actor) {
    actor.mayManage || (owner.Some? && owner.value == actor.member)
  }

  lemma MovesAre(from: Status, to: Status)
    ensures to in Transitions(from) <==> (from, to) in MOVES
    ensures to in InstanceTransitions(from) <==> (from, to) in OCCURRENCE_MOVES
  {
  }

  /** No operation on an obligation gets past an unknown id or an obsolete revision. */
  lemma RefusedWhenLocked(db: Database, id: Id, expected: nat, to: Status, actor: Actor, now: Time,
                          instance: Option<Id>, evidenceType: string, sha256: string, owner: Option<Id>,
                          e: Id, decision: Decision, note: Option<string>)
    requires id !in db.obligations || db.obligations[id].revision != expected
    ensures var error := if id !in db.obligations then NotFound
                         else StaleRevision(expected, db.obligations[id].revision);
            && Transition(db, id, to, expected, actor, now) == Failure(error)
            && Assign(db, id, owner, expected, actor.subject) == Failure(error)
            && Acknowledge(db, id, expected, actor, now) == Failure(error)
            && SubmitEvidence(db, id, expected, actor, instance, evidenceType, sha256) == Failure(error)
            && ReviewEvidence(db, id, e, decision, expected, actor, note, now) == Failure(error)
  {
  }

  // Transitions

  /** A transition of known work at its current revision: refused for want of access exactly to those who
      neither own it nor may manage, and granted to the others exactly for a listed change of status,
      with the evidence shown if it is a completion. */
  lemma TransitionAnswers(db: Database, id: Id, to: Status, expected: nat, actor: Actor, now: Time)
    requires id in db.obligations && db.obligations[id].revision == expected
    ensures var o, r := db.obligations[id], Transition(db, id, to, expected, actor, now);
            var shown := Demonstrated(o.requirements, db.evidence, OfObligation(id));
            && (r == Failure(AccessDenied) <==> !MayAct(o.owner, actor))
            && (r.Success? <==> MayAct(o.owner, actor) && (o.status, to) in MOVES && (to == Completed ==> shown))
            && (r == Failure(InvalidTransition(o.status, to)) <==>
                  MayAct(o.owner, actor) && (o.status, to) !in MOVES)
  {
    hide Transitions, Demonstrated, ValidateCompletion;
    var o := db.obligations[id];
    MovesAre(o.status, to);
    CompletionIff(o.requirements, db.evidence, OfObligation(id));
    CompletionErrors(o.requirements, db.evidence, OfObligation(id));
  }

  lemma CompletionErrors(r: Requirements, evidence: map<Id, Evidence>, scope: Scope)
    ensures var v := ValidateCompletion(r, evidence, scope);
            v.Failure? ==> v.error.MalformedMinimum? || v.error.MissingTypes? || v.error.TooFewAccepted?
  {
    hide RequiredTypes, TypesOf, AcceptedIn;
  }

  /** What a granted transition changes: the row's status, date of completion and revision, and one event. */
  lemma TransitionChanges(db: Database, id: Id, to: Status, expected: nat, actor: Actor, now: Time)
    requires Transition(db, id, to, expected, actor, now).Success?
    ensures id in db.obligations
    ensures var o := db.obligations[id];
            var closed := o.status == Completed || o.status == Waived;
            var change := if closed then Reopened(expected + 1) else StatusChanged(expected + 1);
            var done := if to == Completed then Some(now) else None;
            Transition(db, id, to, expected, actor, now).value ==
              db.(obligations := db.obligations[id := o.(status := to, completedAt := done, revision := expected + 1)],
                  events := db.events + [ObligationEvent(id, actor.subject, Some(o.status), Some(to), change)])
  {
    hide ValidateCompletion, Transitions;
  }

  /** The same for an occurrence. */
  lemma TransitionInstanceAnswers(db: Database, obligation: Id, id: Id, to: Status, expected: nat, actor: Actor,
                                  now: Time)
    ensures var r := TransitionInstance(db, obligation, id, to, expected, actor, now);
            if id !in db.instances || db.instances[id].obligation != obligation then r == Failure(NotFound)
            else if db.instances[id].revision != expected then
              r == Failure(StaleRevision(expected, db.instances[id].revision))
            else
              var i := db.instances[id];
              var shown := Demonstrated(i.requirements, db.evidence, OfInstance(id));
              && (r == Failure(AccessDenied) <==> !MayAct(i.owner, actor))
              && (r.Success? <==>
                    MayAct(i.owner, actor) && (i.status, to) in OCCURRENCE_MOVES && (to == Completed ==> shown))
              && (r == Failure(InvalidTransition(i.status, to)) <==>
                    MayAct(i.owner, actor) && (i.status, to) !in OCCURRENCE_MOVES)
  {
    hide InstanceTransitions, Demonstrated, ValidateCompletion;
    if id in db.instances {
      var i := db.instances[id];
      MovesAre(i.status, to);
      CompletionIff(i.requirements, db.evidence, OfInstance(id));
      CompletionErrors(i.requirements, db.evidence, OfInstance(id));
    }
  }

  lemma TransitionInstanceChanges(db: Database, obligation: Id, id: Id, to: Status, expected: nat, actor: Actor,
                                  now: Time)
    requires TransitionInstance(db, obligation, id, to, expected, actor, now).Success?
    ensures id in db.instances
    ensures var i := db.instances[id];
            var closed := i.status == Completed || i.status == Waived;
            var change := if closed then InstanceReopened(expected + 1) else InstanceStatusChanged(expected + 1);
            var done := if to == Completed then Some(now) else None;
            TransitionInstance(db, obligation, id, to, expected, actor, now).value ==
              db.(instances := db.instances[id := i.(status := to, completedAt := done, revision := expected + 1)],
                  instanceEvents := db.instanceEvents
                    + [InstanceEvent(id, actor.subject, Some(i.status), Some(to), change)])
  {
    hide ValidateCompletion, InstanceTransitions;
  }

  // Ownership

  /** Only the owner acknowledges, and only active work; doing so again changes nothing. */
  lemma AcknowledgeAnswers(db: Database, id: Id, expected: nat, actor: Actor, now: Time)
    requires id in db.obligations && db.obligations[id].revision == expected
    ensures var o, r := db.obligations[id], Acknowledge(db, id, expected, actor, now);
            && (r == Failure(AccessDenied) <==> o.owner != Some(actor.member))
            && (r.Success? <==> o.owner == Some(actor.member) && o.status == Active)
            && (r.Failure? && o.owner == Some(actor.member) ==> r.error == InvalidState(o.status))
            && (r.Success? && o.acknowledgedAt.Some? ==> r.value == db)
            && (r.Success? && o.acknowledgedAt.None? ==>
                  r.value == db.(
                    obligations := db.obligations[id := o.(acknowledgedAt := Some(now), revision := expected + 1)],
                    events := db.events + [ObligationEvent(id, actor.subject, Some(Active), Some(Active),
                                                           Change.Acknowledged(expected + 1))]))
  {
  }

  /** An owner must be an active member; work that has ended keeps its owner. A new owner has not
      acknowledged anything yet. */
  lemma AssignAnswers(db: Database, id: Id, owner: Option<Id>, expected: nat, actor: string)
    requires id in db.obligations && db.obligations[id].revision == expected
    ensures var o, r := db.obligations[id], Assign(db, id, owner, expected, actor);
            var ended := o.status == Completed || o.status == Waived || o.status == Superseded;
            var member := owner.None? || (owner.value in db.members && db.members[owner.value].active);
            var subject := if owner.Some? && owner.value in db.members then Some(db.members[owner.value].subject) else None;
            var status := if owner.Some? then Active else Unassigned;
            && (r == Failure(InvalidState(o.status)) <==> ended)
            && (r == Failure(OwnerNotActive) <==> !ended && !member)
            && (r.Success? <==> !ended && member)
            && (r.Success? ==>
                  r.value == db.(
                    obligations := db.obligations[id := o.(owner := owner, ownerSubject := subject, status := status,
                                                           acknowledgedAt := None, revision := expected + 1)],
                    events := db.events + [ObligationEvent(id, actor, Some(o.status), Some(status),
                                                           OwnerSet(o.owner, owner, expected + 1))]))
  {
  }

  // Creation

  /** Work comes from verified facts, once; its owner must be an active member and its policy acceptable.
      It starts with the requested terms and the fact's amount. */
  lemma CreateAnswers(db: Database, fact: Id, request: CreateRequest, actor: string)
    ensures var r := CreateFromFact(db, fact, request, actor);
            var member := request.owner.None? || (request.owner.value in db.members && db.members[request.owner.value].active);
            if fact !in db.facts then r == Failure(NotFound)
            else if !db.facts[fact].verified then r == Failure(FactNotVerified)
            else if exists o :: o in db.obligations && db.obligations[o].sourceFact == fact then
              && r.Success? && r.value.0 == db && !r.value.2
              && r.value.1 in db.obligations && db.obligations[r.value.1].sourceFact == fact
            else if !member then r == Failure(OwnerNotActive)
            else if !Acceptable(request.policy) then r == Failure(PolicyRefused)
            else
              var status := if request.owner.Some? then Active else Unassigned;
              var subject := if request.owner.Some? then Some(db.members[request.owner.value].subject) else None;
              var o := Obligation(fact, status, request.owner, subject, request.dueAt, request.recurrence,
                                  request.leadTimeDays, CanonicalOf(request.policy), request.requirements,
                                  db.facts[fact].monetaryValue, None, None, 1);
              var event := ObligationEvent(db.nextId, actor, None, Some(status), Created(request.owner));
              r == Success((db.(obligations := db.obligations[db.nextId := o], events := db.events + [event],
                                nextId := db.nextId + 1),
                            db.nextId, true))
  {
    hide Acceptable, CanonicalOf;
  }

  // Evidence

  /** The owner or a manager hands in evidence, unless the work was waived or superseded, for the work
      itself or one of its own occurrences. The same content is one artifact. */
  lemma SubmitAnswers(db: Database, id: Id, expected: nat, actor: Actor, instance: Option<Id>, evidenceType: string,
                      sha256: string)
    requires id in db.obligations && db.obligations[id].revision == expected
    ensures var o, r := db.obligations[id], SubmitEvidence(db, id, expected, actor, instance, evidenceType, sha256);
            var open := o.status != Waived && o.status != Superseded;
            var own := instance.None? || (instance.value in db.instances && db.instances[instance.value].obligation == id);
            && (r == Failure(AccessDenied) <==> !MayAct(o.owner, actor))
            && (r == Failure(InvalidState(o.status)) <==> MayAct(o.owner, actor) && !open)
            && (r == Failure(NotFound) <==> MayAct(o.owner, actor) && open && !own)
            && (r.Success? <==> MayAct(o.owner, actor) && open && own)
  {
    if HasArtifact(db, id, instance, sha256) {
      var e :| e in db.evidence && SameArtifact(db.evidence[e], id, instance, sha256);
    }
  }

  lemma SubmitChanges(db: Database, id: Id, expected: nat, actor: Actor, instance: Option<Id>, evidenceType: string,
                      sha256: string)
    requires SubmitEvidence(db, id, expected, actor, instance, evidenceType, sha256).Success?
    ensures id in db.obligations
    ensures var (db', e, added) := SubmitEvidence(db, id, expected, actor, instance, evidenceType, sha256).value;
            var o := db.obligations[id];
            if exists k :: k in db.evidence && db.evidence[k].obligation == id && db.evidence[k].instance == instance
                           && db.evidence[k].sha256 == sha256
            then
              && !added && db' == db && e in db.evidence
              && db.evidence[e].obligation == id && db.evidence[e].instance == instance && db.evidence[e].sha256 == sha256
            else
              && added && e == db.nextId
              && db' == db.(
                   evidence := db.evidence[e := Evidence(id, instance, evidenceType, sha256, actor.member, Pending,
                                                         None, None, None)],
                   obligations := db.obligations[id := o.(revision := expected + 1)],
                   events := db.events + [ObligationEvent(id, actor.subject, Some(o.status), Some(o.status),
                                                          EvidenceSubmitted(e, expected + 1))],
                   nextId := db.nextId + 1)
  {
    if k :| k in db.evidence && db.evidence[k].obligation == id && db.evidence[k].instance == instance
            && db.evidence[k].sha256 == sha256 {
      assert SameArtifact(db.evidence[k], id, instance, sha256);
    } else {
      assert !HasArtifact(db, id, instance, sha256);
    }
  }

  /** A review is final. Acceptance by the submitter is refused exactly when the policy is flagged for
      independent acceptance or as regulated, or the amount reaches its threshold; acceptance by anyone
      is refused when that threshold is needed and cannot be read. Rejection needs neither. */
  lemma ReviewAnswers(db: Database, id: Id, e: Id, decision: Decision, expected: nat, reviewer: Actor,
                      note: Option<string>, now: Time)
    requires id in db.obligations && db.obligations[id].revision == expected
    ensures var o, r := db.obligations[id], ReviewEvidence(db, id, e, decision, expected, reviewer, note, now);
            if e !in db.evidence || db.evidence[e].obligation != id then r == Failure(NotFound)
            else if db.evidence[e].status != Pending then r == Failure(DecisionFinal)
            else if decision == OtherDecision then r == Failure(UnknownDecision)
            else if decision == Reject then r.Success?
            else
              && (r == Failure(AccessDenied) <==>
                    db.evidence[e].submittedBy == reviewer.member && NeedsAnother(o.requirements, o.monetaryValue))
              && (r == Failure(MalformedThreshold) <==> Unreadable(o.requirements, o.monetaryValue))
              && (r.Success? <==>
                    && !Unreadable(o.requirements, o.monetaryValue)
                    && (db.evidence[e].submittedBy == reviewer.member ==> !NeedsAnother(o.requirements, o.monetaryValue)))
  {
    IndependenceIs(db.obligations[id].requirements, db.obligations[id].monetaryValue);
    hide RequiresIndependence, Record;
    assert Unreadable(db.obligations[id].requirements, db.obligations[id].monetaryValue) ==>
             !NeedsAnother(db.obligations[id].requirements, db.obligations[id].monetaryValue);
  }

  lemma ReviewChanges(db: Database, id: Id, e: Id, decision: Decision, expected: nat, reviewer: Actor,
                      note: Option<string>, now: Time)
    requires ReviewEvidence(db, id, e, decision, expected, reviewer, note, now).Success?
    ensures id in db.obligations && e in db.evidence
    ensures var o := db.obligations[id];
            var status := if decision == Accept then Accepted else Rejected;
            var row := db.evidence[e].(status := status, reviewedBy := Some(reviewer.member), reviewedAt := Some(now),
                                       note := note);
            ReviewEvidence(db, id, e, decision, expected, reviewer, note, now).value ==
              db.(evidence := db.evidence[e := row],
                  obligations := db.obligations[id := o.(revision := expected + 1)],
                  events := db.events + [ObligationEvent(id, reviewer.subject, Some(o.status), Some(o.status),
                                                         EvidenceDecided(e, status, expected + 1))])
  {
    hide RequiresIndependence;
  }

  // Alerts

  /** The owner of an alert that names no role, the holders of the role it names, or a manager may
      acknowledge it, once it is ready. */
  lemma AcknowledgeAlertAnswers(db: Database, id: Id, expected: nat, member: Id, subject: string,
                                roles: set<Recipient>, mayManage: bool, now: Time)
    ensures var r := AcknowledgeAlert(db, id, expected, member, subject, roles, mayManage, now);
            if id !in db.alerts then r == Failure(NotFound)
            else if db.alerts[id].revision != expected then r == Failure(StaleRevision(expected, db.alerts[id].revision))
            else
              var a := db.alerts[id];
              var meant := if a.spec.targetRole.Some? then a.spec.targetRole.value in roles else a.spec.owner == Some(member);
              && (r == Failure(AccessDenied) <==> !meant && !mayManage)
              && (r == Failure(AlertNotReady) <==>
                    (meant || mayManage) && (a.status == AlertScheduled || a.status == AlertStatus.AlertCancelled))
              && (r.Success? && a.status == AlertAcknowledged ==> r.value == db)
              && (r.Success? && a.status == AlertReady ==>
                    && id in r.value.alerts
                    && r.value.alerts == db.alerts[id := a.(status := AlertAcknowledged, acknowledgedAt := Some(now),
                                                            acknowledgedBy := Some(subject), revision := expected + 1)]
                    && r.value == db.(
                         alerts := r.value.alerts,
                         events := db.events + [ObligationEvent(a.spec.obligation, subject, None, None,
                                                                AlertChanged(id, AckRecorded))],
                         instanceEvents := r.value.instanceEvents)
                    && r.value.instanceEvents == db.instanceEvents + if a.spec.instance.None? then [] else
                         [InstanceEvent(a.spec.instance.value, subject, None, None, InstanceAlertChanged(id, AckRecorded))])
              && (r.Failure? ==> r.error == AccessDenied || r.error == AlertNotReady)
  {
  }
}
