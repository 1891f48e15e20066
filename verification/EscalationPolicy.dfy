/** Validation and canonical form of escalation policies. */
module EscalationPolicy {
  import opened Common
  import opened Text

  /** The four recipients a step may name. */
  datatype Recipient = Owner | LegalReviewer | ProcurementReviewer | Administrator

  const MAX_ESCALATION_STEPS := 10
  const MAX_ESCALATION_DELAY_DAYS := 3650
  const IN_APP := "in_app"

  /** What a caller may put under `after_days`. */
  datatype RawDays = Absent | Boolean(b: bool) | Integer(n: int) | OtherValue

  datatype RawStep =
    | NotAnObject
    | StepObject(hasUnknownField: bool, afterDays: RawDays, recipient: Option<string>, channel: Option<string>)

  datatype RawSteps = NoSteps | NotAList | StepList(steps: seq<RawStep>)

  datatype RawPolicy = NoPolicy | PolicyObject(hasUnknownField: bool, steps: RawSteps)

  /** A normalized step; its channel is always `in_app`. */
  datatype EscalationStep = EscalationStep(afterDays: nat, recipient: Recipient)

  datatype StepFault =
    | StepNotAnObject
    | UnknownStepField
    | DelayNotAnInteger
    | DelayOutOfRange
    | DuplicateDelay
    | UnknownRecipient
    | UnavailableChannel

  datatype PolicyError =
    | UnknownPolicyField
    | StepsNotAList
    | TooManySteps
    | BadStep(index: nat, fault: StepFault)

  function RecipientText(r: Recipient): string {
    match r
    case Owner => "owner"
    case LegalReviewer => "legal-reviewer"
    case ProcurementReviewer => "procurement-reviewer"
    case Administrator => "administrator"
  }

  /** The recipient named by a caller's text, after `strip` and `casefold`. */
  function ParseRecipient(text: string): Option<Recipient> {
    var folded := Fold(text);
    if folded == RecipientText(Owner) then Some(Owner)
    else if folded == RecipientText(LegalReviewer) then Some(LegalReviewer)
    else if folded == RecipientText(ProcurementReviewer) then Some(ProcurementReviewer)
    else if folded == RecipientText(Administrator) then Some(Administrator)
    else None
  }

  /** `raw_step.get("recipient", "owner")` */
  function RecipientOf(recipient: Option<string>): Option<Recipient> {
    if recipient.None? then Some(Owner) else ParseRecipient(recipient.value)
  }

  /** `raw_step.get("channel", "in_app")` */
  predicate ChannelAvailable(channel: Option<string>) {
    channel.Some? ==> Fold(channel.value) == IN_APP
  }

  /** The first reason, in the order the checks are made, why `step` is refused after `seen`. */
  function StepFaultOf(step: RawStep, seen: set<int>): Option<StepFault> {
    if step.NotAnObject? then Some(StepNotAnObject)
    else if step.hasUnknownField then Some(UnknownStepField)
    else if !step.afterDays.Integer? then Some(DelayNotAnInteger)
    else if !(0 <= step.afterDays.n <= MAX_ESCALATION_DELAY_DAYS) then Some(DelayOutOfRange)
    else if step.afterDays.n in seen then Some(DuplicateDelay)
    else if RecipientOf(step.recipient).None? then Some(UnknownRecipient)
    else if !ChannelAvailable(step.channel) then Some(UnavailableChannel)
    else None
  }

  predicate ValidStep(step: RawStep) {
    StepFaultOf(step, {}).None?
  }

  function NormalStep(step: RawStep): EscalationStep
    requires ValidStep(step)
  {
    EscalationStep(step.afterDays.n, RecipientOf(step.recipient).value)
  }

  function NormalSteps(steps: seq<RawStep>): (r: seq<EscalationStep>)
    requires forall i :: 0 <= i < |steps| ==> ValidStep(steps[i])
    ensures |r| == |steps|
    ensures forall i :: 0 <= i < |steps| ==> r[i] == NormalStep(steps[i])
  {
    seq(|steps|, i requires 0 <= i < |steps| => NormalStep(steps[i]))
  }

  predicate Increasing(steps: seq<EscalationStep>) {
    forall i, j :: 0 <= i < j < |steps| ==> steps[i].afterDays < steps[j].afterDays
  }

  /** The form every stored policy has. */
  predicate Canonical(steps: seq<EscalationStep>) {
    && |steps| <= MAX_ESCALATION_STEPS
    && Increasing(steps)
    && forall i :: 0 <= i < |steps| ==> steps[i].afterDays <= MAX_ESCALATION_DELAY_DAYS
  }

  function StepsOf(policy: RawPolicy): seq<RawStep> {
    if policy.PolicyObject? && policy.steps.StepList? then policy.steps.steps else []
  }

  /** The caller-visible acceptance condition. */
  predicate Acceptable(policy: RawPolicy) {
    policy.PolicyObject? ==>
      && !policy.hasUnknownField
      && !policy.steps.NotAList?
      && AcceptableSteps(StepsOf(policy))
  }

  predicate AcceptableSteps(steps: seq<RawStep>) {
    && |steps| <= MAX_ESCALATION_STEPS
    && (forall i :: 0 <= i < |steps| ==> ValidStep(steps[i]))
    && forall i, j :: 0 <= i < j < |steps| ==> steps[i].afterDays != steps[j].afterDays
  }

  // `list.sort(key=after_days)`, as an insertion sort.

  function Insert(s: EscalationStep, sorted: seq<EscalationStep>): (r: seq<EscalationStep>)
    ensures multiset(r) == multiset(sorted) + multiset{s}
  {
    if sorted == [] then [s]
    else if s.afterDays < sorted[0].afterDays then [s] + sorted
    else
      assert sorted == [sorted[0]] + sorted[1..];
      [sorted[0]] + Insert(s, sorted[1..])
  }

  function SortByDelay(steps: seq<EscalationStep>): (r: seq<EscalationStep>)
    ensures multiset(r) == multiset(steps)
    ensures |r| == |steps|
  {
    if steps == [] then []
    else
      assert steps == steps[..|steps| - 1] + [steps[|steps| - 1]];
      var r := Insert(steps[|steps| - 1], SortByDelay(steps[..|steps| - 1]));
      assert |multiset(r)| == |multiset(steps)|;
      r
  }

  lemma InsertIncreasing(s: EscalationStep, sorted: seq<EscalationStep>)
    requires Increasing(sorted)
    requires forall t :: t in sorted ==> t.afterDays != s.afterDays
    ensures Increasing(Insert(s, sorted))
  {
    if sorted != [] && !(s.afterDays < sorted[0].afterDays) {
      InsertIncreasing(s, sorted[1..]);
      InsertAbove(s, sorted);
    }
  }

  lemma InsertAbove(s: EscalationStep, sorted: seq<EscalationStep>)
    requires Increasing(sorted) && sorted != [] && sorted[0].afterDays < s.afterDays
    ensures forall t :: t in Insert(s, sorted[1..]) ==> sorted[0].afterDays < t.afterDays
  {
    hide Insert;
    var rest := Insert(s, sorted[1..]);
    SameMembers(rest, sorted[1..] + [s]);
    forall t | t in rest
      ensures sorted[0].afterDays < t.afterDays
    {
      assert t in sorted[1..] + [s];
    }
  }

  predicate DistinctDelays(steps: seq<EscalationStep>) {
    forall i, j :: 0 <= i < j < |steps| ==> steps[i].afterDays != steps[j].afterDays
  }

  lemma SortIncreasing(steps: seq<EscalationStep>)
    requires DistinctDelays(steps)
    ensures Increasing(SortByDelay(steps))
  {
    if steps != [] {
      var init, last := steps[..|steps| - 1], steps[|steps| - 1];
      SortIncreasing(init);
      SameMembers(SortByDelay(init), init);
      forall t | t in SortByDelay(init)
        ensures t.afterDays != last.afterDays
      {
        assert t in init;
      }
      InsertIncreasing(last, SortByDelay(init));
    }
  }

  /** A strictly increasing list is determined by its elements. */
  lemma {:induction false} IncreasingUnique(a: seq<EscalationStep>, b: seq<EscalationStep>)
    requires Increasing(a) && Increasing(b)
    requires multiset(a) == multiset(b)
    ensures a == b
  {
    if a == [] || b == [] {
      BothEmpty(a, b);
    } else {
      SameHead(a, b);
      TailMultiset(a);
      TailMultiset(b);
      IncreasingUnique(a[1..], b[1..]);
    }
  }

  lemma BothEmpty(a: seq<EscalationStep>, b: seq<EscalationStep>)
    requires multiset(a) == multiset(b) && (a == [] || b == [])
    ensures a == b
  {
  }

  lemma SameHead(a: seq<EscalationStep>, b: seq<EscalationStep>)
    requires Increasing(a) && Increasing(b) && a != [] && b != []
    requires multiset(a) == multiset(b)
    ensures a[0] == b[0]
  {
    SameMembers(a, b);
    assert a[0] in b;
    assert b[0] in a;
  }

  lemma TailMultiset(a: seq<EscalationStep>)
    requires a != []
    ensures multiset(a[1..]) == multiset(a) - multiset{a[0]}
  {
    assert a == [a[0]] + a[1..];
  }

  /** The canonical policy an acceptable input denotes. */
  function CanonicalOf(policy: RawPolicy): (r: seq<EscalationStep>)
    requires Acceptable(policy)
  {
    SortByDelay(NormalSteps(StepsOf(policy)))
  }

  lemma {:induction false} CanonicalOfIsCanonical(policy: RawPolicy)
    requires Acceptable(policy)
    ensures Canonical(CanonicalOf(policy))
  {
    var steps := StepsOf(policy);
    var normal := NormalSteps(steps);
    assert DistinctDelays(normal);
    SortIncreasing(normal);
    SameMembers(SortByDelay(normal), normal);
    forall i | 0 <= i < |steps|
      ensures CanonicalOf(policy)[i].afterDays <= MAX_ESCALATION_DELAY_DAYS
    {
      assert CanonicalOf(policy)[i] in normal;
    }
  }

  /** `normalize_escalation_policy` as a function: the canonical policy, or the first fault. */
  ghost predicate FirstFault(policy: RawPolicy, error: PolicyError) {
    && policy.PolicyObject?
    && if policy.hasUnknownField then error == UnknownPolicyField
       else if policy.steps.NotAList? then error == StepsNotAList
       else if |StepsOf(policy)| > MAX_ESCALATION_STEPS then error == TooManySteps
       else
         var steps := StepsOf(policy);
         && error.BadStep?
         && 1 <= error.index <= |steps|
         && Clear(steps, error.index - 1)
         && StepFaultOf(steps[error.index - 1], SeenBefore(steps, error.index - 1)) == Some(error.fault)
  }

  /** The delays already used when step `i` is checked. */
  function SeenBefore(steps: seq<RawStep>, i: nat): set<int>
    requires i <= |steps|
  {
    set j | 0 <= j < i && steps[j].StepObject? && steps[j].afterDays.Integer? :: steps[j].afterDays.n
  }

  /** The checks on the first `n` steps, made in order, find no fault. */
  predicate Clear(steps: seq<RawStep>, n: nat)
    requires n <= |steps|
  {
    forall j :: 0 <= j < n ==> StepFaultOf(steps[j], SeenBefore(steps, j)).None?
  }

  lemma ClearStepsValid(steps: seq<RawStep>, n: nat)
    requires n <= |steps| && Clear(steps, n)
    ensures forall i :: 0 <= i < n ==> ValidStep(steps[i])
    ensures forall i, j :: 0 <= i < j < n ==> steps[i].afterDays != steps[j].afterDays
  {
  }

  /** A fault found at step `n` is a fault of the policy: it is not acceptable. */
  lemma FaultRefuses(steps: seq<RawStep>, n: nat)
    requires n < |steps|
    requires StepFaultOf(steps[n], SeenBefore(steps, n)).Some?
    ensures !AcceptableSteps(steps)
  {
  }

  /** Accepts exactly the acceptable policies, returning their canonical form; otherwise reports
      the first fault in checking order. */
  method NormalizeEscalationPolicy(policy: RawPolicy) returns (r: Result<seq<EscalationStep>, PolicyError>)
    ensures r.Success? <==> Acceptable(policy)
    ensures r.Success? ==> r.value == CanonicalOf(policy)
    ensures r.Failure? ==> FirstFault(policy, r.error)
  {
    if policy.NoPolicy? {
      return Success([]);
    }
    if policy.hasUnknownField {
      return Failure(UnknownPolicyField);
    }
    if policy.steps.NotAList? {
      return Failure(StepsNotAList);
    }
    var rawSteps := StepsOf(policy);
    if |rawSteps| > MAX_ESCALATION_STEPS {
      return Failure(TooManySteps);
    }
    var normalized: seq<EscalationStep> := [];
    var seenDelays: set<int> := {};
    var index := 0;
    while index < |rawSteps|
      invariant 0 <= index <= |rawSteps|
      invariant Clear(rawSteps, index)
      invariant |normalized| == index
      invariant forall i :: 0 <= i < index ==> ValidStep(rawSteps[i]) && normalized[i] == NormalStep(rawSteps[i])
      invariant seenDelays == SeenBefore(rawSteps, index)
    {
      var rawStep := rawSteps[index];
      var fault := StepFaultOf(rawStep, seenDelays);
      if fault.Some? {
        FaultRefuses(rawSteps, index);
        return Failure(BadStep(index + 1, fault.value));
      }
      SeenAfter(rawSteps, index);
      seenDelays := seenDelays + {rawStep.afterDays.n};
      normalized := normalized + [NormalStep(rawStep)];
      index := index + 1;
    }
    ClearStepsValid(rawSteps, index);
    assert normalized == NormalSteps(rawSteps);
    normalized := SortByDelay(normalized);
    return Success(normalized);
  }

  lemma SeenAfter(steps: seq<RawStep>, i: nat)
    requires i < |steps| && ValidStep(steps[i])
    ensures SeenBefore(steps, i + 1) == SeenBefore(steps, i) + {steps[i].afterDays.n}
  {
  }

  /** A stored policy, read back as the input of a later normalization. */
  function AsRaw(steps: seq<EscalationStep>): RawPolicy {
    PolicyObject(false, StepList(seq(|steps|, i requires 0 <= i < |steps| =>
      StepObject(false, Integer(steps[i].afterDays), Some(RecipientText(steps[i].recipient)), Some(IN_APP)))))
  }

  /** The texts normalization writes are read back as the same recipient and channel. */
  lemma TextsReadBack(r: Recipient)
    ensures ParseRecipient(RecipientText(r)) == Some(r)
    ensures ChannelAvailable(Some(IN_APP))
  {
    FoldOfFolded(RecipientText(r));
    FoldOfFolded(IN_APP);
    assert |RecipientText(Owner)| == 5 && |RecipientText(LegalReviewer)| == 14;
    assert |RecipientText(ProcurementReviewer)| == 20 && |RecipientText(Administrator)| == 13;
  }

  lemma FoldOfFolded(s: string)
    requires Trimmed(s)
    requires forall i :: 0 <= i < |s| ==> LowerChar(s[i]) == s[i]
    ensures Fold(s) == s
  {
  }

  /** Normalization is idempotent: a canonical policy is accepted and returned as it is. */
  lemma {:induction false} NormalizationIdempotent(steps: seq<EscalationStep>)
    requires Canonical(steps)
    ensures Acceptable(AsRaw(steps))
    ensures CanonicalOf(AsRaw(steps)) == steps
  {
    var raw := StepsOf(AsRaw(steps));
    forall i | 0 <= i < |raw|
      ensures ValidStep(raw[i]) && NormalStep(raw[i]) == steps[i]
    {
      TextsReadBack(steps[i].recipient);
    }
    assert NormalSteps(raw) == steps;
    assert DistinctDelays(steps);
    SortIncreasing(steps);
    IncreasingUnique(SortByDelay(steps), steps);
  }

  /** The order in which a caller lists the steps is irrelevant: a permutation is accepted exactly
      when the original is, with the same canonical policy. */
  lemma {:induction false} OrderIrrelevant(a: seq<RawStep>, b: seq<RawStep>)
    requires multiset(a) == multiset(b)
    ensures AcceptableSteps(a) <==> AcceptableSteps(b)
    ensures AcceptableSteps(a) ==>
              CanonicalOf(PolicyObject(false, StepList(a))) == CanonicalOf(PolicyObject(false, StepList(b)))
  {
    if AcceptableSteps(a) {
      AcceptanceTransfers(a, b);
    }
    if AcceptableSteps(b) {
      AcceptanceTransfers(b, a);
    }
    if AcceptableSteps(a) {
      NormalMultiset(a, b);
      NormalDistinct(a);
      NormalDistinct(b);
      hide AcceptableSteps, NormalSteps, SortByDelay, Increasing, DistinctDelays, ValidStep;
      var na, nb := NormalSteps(a), NormalSteps(b);
      SortIncreasing(na);
      SortIncreasing(nb);
      IncreasingUnique(SortByDelay(na), SortByDelay(nb));
    }
  }

  lemma NormalDistinct(steps: seq<RawStep>)
    requires AcceptableSteps(steps)
    ensures forall i :: 0 <= i < |steps| ==> ValidStep(steps[i])
    ensures DistinctDelays(NormalSteps(steps))
  {
  }

  lemma AcceptanceTransfers(a: seq<RawStep>, b: seq<RawStep>)
    requires multiset(a) == multiset(b)
    requires AcceptableSteps(a)
    ensures AcceptableSteps(b)
  {
    assert |b| == |multiset(b)| == |multiset(a)| == |a|;
    forall i | 0 <= i < |b|
      ensures ValidStep(b[i])
    {
      assert b[i] in multiset(b);
      assert b[i] in a;
    }
    forall i, j | 0 <= i < j < |b|
      ensures b[i].afterDays != b[j].afterDays
    {
      if b[i].afterDays == b[j].afterDays {
        assert b[i] in multiset(b) && b[j] in multiset(b);
        assert b[i] in a && b[j] in a;
        var x :| 0 <= x < |a| && a[x] == b[i];
        var y :| 0 <= y < |a| && a[y] == b[j];
        assert x == y;
        TwoOccurrences(b, i, j);
        OneOccurrence(a, x);
      }
    }
  }

  lemma {:induction false} NormalMultiset(a: seq<RawStep>, b: seq<RawStep>)
    requires multiset(a) == multiset(b)
    requires forall i :: 0 <= i < |a| ==> ValidStep(a[i])
    requires forall i :: 0 <= i < |b| ==> ValidStep(b[i])
    ensures multiset(NormalSteps(a)) == multiset(NormalSteps(b))
    decreases |a|
  {
    hide ValidStep, NormalSteps;
    if a == [] {
      assert |multiset(b)| == |multiset(a)| == 0;
    } else {
      assert a[0] in multiset(b);
      var k :| 0 <= k < |b| && b[k] == a[0];
      RemoveAtMultiset(a, 0);
      RemoveAtMultiset(b, k);
      NormalMultiset(RemoveAt(a, 0), RemoveAt(b, k));
      NormalRemoveAt(a, 0);
      NormalRemoveAt(b, k);
      RemoveAtMultiset(NormalSteps(a), 0);
      RemoveAtMultiset(NormalSteps(b), k);
    }
  }

  lemma NormalRemoveAt(s: seq<RawStep>, k: nat)
    requires k < |s|
    requires forall i :: 0 <= i < |s| ==> ValidStep(s[i])
    ensures NormalSteps(RemoveAt(s, k)) == RemoveAt(NormalSteps(s), k)
  {
  }
}
