/** Rows of one tenant's obligation tables, and the constraints the schema puts on them. */
module Tables {
  import opened Common
  import opened Text
  import opened EscalationPolicy

  /** A UUID. Fresh ones are drawn from one counter, so they are distinct across tables. */
  type Id = nat

  /** An instant, in microseconds. */
  type Time = int

  const DAY: int := 86_400_000_000

  datatype Status = Scheduled | Unassigned | Active | Blocked | Completed | Waived | Superseded

  predicate IsTerminal(s: Status) {
    s.Completed? || s.Waived? || s.Superseded?
  }

  /** ACTIVE_STATES of the automation, for obligations. */
  predicate IsOpen(s: Status) {
    s.Unassigned? || s.Active? || s.Blocked?
  }

  /** ACTIVE_STATES plus `scheduled`, for occurrences. */
  predicate IsOpenInstance(s: Status) {
    IsOpen(s) || s.Scheduled?
  }

  datatype Fact = Fact(verified: bool, monetaryValue: Option<real>)

  datatype Member = Member(active: bool, subject: string)

  datatype RawCount = Count(n: int) | NotACount

  datatype RawThreshold = Amount(value: real) | NotNumeric

  /** The free-form evidence policy, with both spellings of each key. */
  datatype Requirements = Requirements(
    requiredTypes: Option<seq<string>>,
    types: Option<seq<string>>,
    minimumAccepted: Option<RawCount>,
    minAccepted: Option<RawCount>,
    independentAcceptance: bool,
    regulated: bool,
    highValueThreshold: Option<RawThreshold>)

  /** A recurrence policy: whether it passes textual validation, and its occurrences. */
  datatype Recurrence = Recurrence(wellFormed: bool, occurs: Time -> bool)

  datatype Obligation = Obligation(
    sourceFact: Id,
    status: Status,
    owner: Option<Id>,
    ownerSubject: Option<string>,
    dueAt: Option<Time>,
    recurrence: Option<Recurrence>,
    leadTimeDays: nat,
    policy: seq<EscalationStep>,
    requirements: Requirements,
    monetaryValue: Option<real>,
    acknowledgedAt: Option<Time>,
    completedAt: Option<Time>,
    revision: nat)

  datatype Instance = Instance(
    obligation: Id,
    scheduledFor: Time,
    dueAt: Time,
    status: Status,
    owner: Option<Id>,
    ownerSubject: Option<string>,
    sourceRevision: nat,
    recurrence: Recurrence,
    leadTimeDays: nat,
    policy: seq<EscalationStep>,
    requirements: Requirements,
    monetaryValue: Option<real>,
    completedAt: Option<Time>,
    revision: nat)

  datatype EvidenceStatus = Pending | Accepted | Rejected

  datatype Evidence = Evidence(
    obligation: Id,
    instance: Option<Id>,
    evidenceType: string,
    sha256: string,
    submittedBy: Id,
    status: EvidenceStatus,
    reviewedBy: Option<Id>,
    reviewedAt: Option<Time>,
    note: Option<string>)

  datatype AlertKind = Reminder | Due | Escalation

  datatype AlertStatus = AlertScheduled | AlertReady | AlertAcknowledged | AlertCancelled

  /** The idempotency key: `target:due:kind:level`. */
  datatype AlertKey = AlertKey(target: Id, dueAt: Time, kind: AlertKind, level: nat)

  /** Everything an alert is created with; none of it may change afterwards. */
  datatype AlertSpec = AlertSpec(
    obligation: Id,
    instance: Option<Id>,
    kind: AlertKind,
    level: nat,
    scheduledFor: Time,
    dueAt: Time,
    owner: Option<Id>,
    ownerSubject: Option<string>,
    targetRole: Option<Recipient>,
    key: AlertKey,
    sourceRevision: nat,
    leadTimeDays: nat,
    step: Option<EscalationStep>)

  datatype Alert = Alert(
    spec: AlertSpec,
    status: AlertStatus,
    revision: nat,
    readyAt: Option<Time>,
    acknowledgedAt: Option<Time>,
    acknowledgedBy: Option<string>)

  datatype AlertStep = ReminderSent | DueSent | EscalationSent | AckRecorded | CancelRecorded

  /** An obligation event's type together with its details. */
  datatype Change =
    | Created(owner: Option<Id>)
    | OwnerSet(previousOwner: Option<Id>, owner: Option<Id>, revision: nat)
    | Acknowledged(revision: nat)
    | StatusChanged(revision: nat)
    | Reopened(revision: nat)
    | EvidenceSubmitted(evidence: Id, revision: nat)
    | EvidenceDecided(evidence: Id, decision: EvidenceStatus, revision: nat)
    | InstancesMaterialized(instances: seq<Id>)
    | AlertChanged(alert: Id, step: AlertStep)

  datatype ObligationEvent = ObligationEvent(
    obligation: Id, actor: string, from: Option<Status>, to: Option<Status>, change: Change)

  datatype InstanceChange =
    | Generated(sourceRevision: nat, scheduledFor: Time)
    | InstanceStatusChanged(revision: nat)
    | InstanceReopened(revision: nat)
    | InstanceAlertChanged(alert: Id, step: AlertStep)

  datatype InstanceEvent = InstanceEvent(
    instance: Id, actor: string, from: Option<Status>, to: Option<Status>, change: InstanceChange)

  /** An `obligation.alert.ready` message; its payload is the alert's immutable part. */
  datatype OutboxEvent = AlertReadyEvent(alert: Id, payload: AlertSpec)

  datatype Database = Database(
    facts: map<Id, Fact>,
    members: map<Id, Member>,
    obligations: map<Id, Obligation>,
    instances: map<Id, Instance>,
    evidence: map<Id, Evidence>,
    alerts: map<Id, Alert>,
    events: seq<ObligationEvent>,
    instanceEvents: seq<InstanceEvent>,
    outbox: seq<OutboxEvent>,
    nextId: Id)

  const EmptyDatabase := Database(map[], map[], map[], map[], map[], map[], [], [], [], 0)

  datatype Error =
    | NotFound
    | StaleRevision(expected: nat, current: nat)
    | AccessDenied
    | FactNotVerified
    | OwnerNotActive
    | PolicyRefused
    | InvalidState(status: Status)
    | InvalidTransition(from: Status, to: Status)
    | MalformedMinimum
    | MalformedThreshold
    | MissingTypes(types: set<string>)
    | TooFewAccepted(minimum: nat)
    | DecisionFinal
    | UnknownDecision
    | NoRecurrence
    | NoDueDate
    | WindowReversed
    | WindowTooLong
    | BadRecurrence
    | TooManyOccurrences
    | AlertNotReady
    | BadHorizon

  // Evidence policy

  /** `{str(item).strip().casefold() for item in ... if str(item).strip()}` */
  function RequiredTypes(r: Requirements): set<string> {
    var items := if r.requiredTypes.Some? then r.requiredTypes.value
                 else if r.types.Some? then r.types.value
                 else [];
    set item | item in items && Strip(item) != "" :: Fold(item)
  }

  /** How many accepted artifacts completion needs. */
  function MinimumAccepted(r: Requirements): Result<nat, Error> {
    var minimum := if r.minimumAccepted.Some? then r.minimumAccepted.value
                   else if r.minAccepted.Some? then r.minAccepted.value
                   else Count(0);
    if minimum.NotACount? then Failure(MalformedMinimum)
    else
      var n := if minimum.n < 0 then 0 else minimum.n;
      var needed := |RequiredTypes(r)|;
      Success(if needed > n then needed else n)
  }

  /** Whether accepting an artifact needs a reviewer other than its submitter. */
  function RequiresIndependence(r: Requirements, monetaryValue: Option<real>): Result<bool, Error> {
    if r.independentAcceptance || r.regulated then Success(true)
    else if r.highValueThreshold.None? || monetaryValue.None? then Success(false)
    else if r.highValueThreshold.value.NotNumeric? then Failure(MalformedThreshold)
    else Success(monetaryValue.value >= r.highValueThreshold.value.value)
  }

  /** What an artifact proves: the obligation itself, or one of its occurrences. */
  datatype Scope = OfObligation(obligation: Id) | OfInstance(instance: Id)

  predicate InScope(e: Evidence, scope: Scope) {
    match scope
    case OfObligation(o) => e.obligation == o && e.instance.None?
    case OfInstance(i) => e.instance == Some(i)
  }

  function AcceptedIn(evidence: map<Id, Evidence>, scope: Scope): set<Id> {
    set e | e in evidence && InScope(evidence[e], scope) && evidence[e].status.Accepted?
  }

  function TypesOf(evidence: map<Id, Evidence>, ids: set<Id>): set<string>
    requires ids <= evidence.Keys
  {
    set e | e in ids :: Lower(evidence[e].evidenceType)
  }

  /** Completion's demand on a scope: every required type accepted, and enough artifacts. */
  ghost predicate Evidenced(r: Requirements, evidence: map<Id, Evidence>, scope: Scope) {
    && MinimumAccepted(r).Success?
    && RequiredTypes(r) <= TypesOf(evidence, AcceptedIn(evidence, scope))
    && |AcceptedIn(evidence, scope)| >= MinimumAccepted(r).value
  }

  /** `_validate_completion_evidence` */
  function ValidateCompletion(r: Requirements, evidence: map<Id, Evidence>, scope: Scope): (result: Result<(), Error>)
    ensures result.Success? <==> Evidenced(r, evidence, scope)
  {
    var minimum :- MinimumAccepted(r);
    if minimum == 0 then
      assert RequiredTypes(r) == {};
      Success(())
    else
      var accepted := AcceptedIn(evidence, scope);
      var missing := RequiredTypes(r) - TypesOf(evidence, accepted);
      assert missing == {} <==> RequiredTypes(r) <= TypesOf(evidence, accepted) by {
        assert forall t :: t in RequiredTypes(r) && t !in TypesOf(evidence, accepted) ==> t in missing;
      }
      if missing != {} then Failure(MissingTypes(missing))
      else if |accepted| < minimum then Failure(TooFewAccepted(minimum))
      else Success(())
  }
}
