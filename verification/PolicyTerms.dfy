/** Which escalation policies are accepted, and what they become, on the fields a caller fills in. */
module PolicyTerms {
  import opened Common
  import opened Text
  import opened EscalationPolicy

  /** What a recipient's text, or its absence, names. */
  predicate Names(text: Option<string>, r: Recipient) {
    match r
    case Owner => text.None? || Fold(text.value) == "owner"
    case LegalReviewer => text.Some? && Fold(text.value) == "legal-reviewer"
    case ProcurementReviewer => text.Some? && Fold(text.value) == "procurement-reviewer"
    case Administrator => text.Some? && Fold(text.value) == "administrator"
  }

  /** A step as it must be: a whole number of days up to ten years, a known recipient, the one channel. */
  predicate IsStep(step: RawStep, days: nat, r: Recipient) {
    && step.StepObject? && !step.hasUnknownField
    && step.afterDays == Integer(days) && days <= 3650
    && Names(step.recipient, r)
    && (step.channel.Some? ==> Fold(step.channel.value) == "in_app")
  }

  ghost predicate IsSomeStep(step: RawStep) {
    exists days: nat, r :: IsStep(step, days, r)
  }

  lemma TextsDiffer()
    ensures "owner" != "legal-reviewer" && "owner" != "procurement-reviewer" && "owner" != "administrator"
    ensures "legal-reviewer" != "procurement-reviewer" && "legal-reviewer" != "administrator"
    ensures "procurement-reviewer" != "administrator"
  {
    assert |"owner"| == 5 && |"legal-reviewer"| == 14 && |"procurement-reviewer"| == 20 && |"administrator"| == 13;
  }

  lemma NamesIs(text: Option<string>, r: Recipient)
    ensures RecipientOf(text) == Some(r) <==> Names(text, r)
  {
    hide Fold;
    TextsDiffer();
  }

  lemma ValidStepIs(step: RawStep)
    ensures ValidStep(step) <==> exists days: nat, r :: IsStep(step, days, r)
    ensures forall days: nat, r :: IsStep(step, days, r) ==> ValidStep(step) && NormalStep(step) == EscalationStep(days, r)
  {
    hide Fold, RecipientOf, Names;
    if ValidStep(step) {
      NamesIs(step.recipient, RecipientOf(step.recipient).value);
      assert IsStep(step, step.afterDays.n, RecipientOf(step.recipient).value);
    }
    forall days: nat, r | IsStep(step, days, r)
      ensures ValidStep(step) && NormalStep(step) == EscalationStep(days, r)
    {
      NamesIs(step.recipient, r);
    }
  }

  /** Accepted are: no policy, and a policy with no other field and a list, possibly absent, of at most
      ten such steps, no two after the same number of days. */
  lemma AcceptableIff(policy: RawPolicy)
    ensures Acceptable(policy) <==>
              || policy.NoPolicy?
              || (!policy.hasUnknownField && policy.steps.NoSteps?)
              || (!policy.hasUnknownField && policy.steps.StepList? && AreSteps(policy.steps.steps))
  {
    hide AreSteps, AcceptableSteps;
    if policy.PolicyObject? && policy.steps.StepList? {
      AreStepsIs(policy.steps.steps);
    } else {
      NoStepsAre();
    }
  }

  ghost predicate AreSteps(steps: seq<RawStep>) {
    && |steps| <= 10
    && (forall i :: 0 <= i < |steps| ==> IsSomeStep(steps[i]))
    && forall i, j :: 0 <= i < j < |steps| && steps[i].StepObject? && steps[j].StepObject? ==>
         steps[i].afterDays != steps[j].afterDays
  }

  lemma NoStepsAre()
    ensures AcceptableSteps([])
  {
  }

  lemma AreStepsIs(steps: seq<RawStep>)
    ensures AcceptableSteps(steps) <==> AreSteps(steps)
  {
    hide ValidStep, IsSomeStep;
    forall i | 0 <= i < |steps|
      ensures ValidStep(steps[i]) == IsSomeStep(steps[i])
      ensures ValidStep(steps[i]) ==> steps[i].StepObject?
    {
      SomeStepIs(steps[i]);
      ValidIsObject(steps[i]);
    }
  }

  lemma SomeStepIs(step: RawStep)
    ensures ValidStep(step) == IsSomeStep(step)
  {
    hide ValidStep, IsStep;
    ValidStepIs(step);
  }

  lemma ValidIsObject(step: RawStep)
    ensures ValidStep(step) ==> step.StepObject?
  {
  }

  /** What is stored: as many steps, each as it was given, by increasing delay. */
  lemma CanonicalContent(policy: RawPolicy)
    requires Acceptable(policy)
    ensures var steps, stored := StepsOf(policy), CanonicalOf(policy);
            && |stored| == |steps|
            && (forall i, j :: 0 <= i < j < |stored| ==> stored[i].afterDays < stored[j].afterDays)
            && (forall i, days: nat, r :: 0 <= i < |steps| && IsStep(steps[i], days, r) ==>
                  EscalationStep(days, r) in stored)
            && forall x :: x in stored ==> exists i :: 0 <= i < |steps| && IsStep(steps[i], x.afterDays, x.recipient)
  {
    hide IsStep, ValidStep, NormalStep, SortByDelay;
    var steps, stored := StepsOf(policy), CanonicalOf(policy);
    CanonicalOfIsCanonical(policy);
    assert stored == SortByDelay(NormalSteps(steps));
    SameMembers(stored, NormalSteps(steps));
    forall i | 0 <= i < |steps|
      ensures NormalSteps(steps)[i] in stored
      ensures forall days: nat, r :: IsStep(steps[i], days, r) ==> EscalationStep(days, r) == NormalSteps(steps)[i]
      ensures IsStep(steps[i], NormalSteps(steps)[i].afterDays, NormalSteps(steps)[i].recipient)
    {
      assert NormalSteps(steps)[i] in NormalSteps(steps);
      ValidStepIs(steps[i]);
    }
  }

  /** The first thing wrong with a step, in the order of the checks: what it is, its fields, its days, the
      days of earlier steps, its recipient, its channel. */
  lemma StepFaults(step: RawStep, seen: set<int>)
    ensures var fault := StepFaultOf(step, seen);
            if !step.StepObject? then fault == Some(StepNotAnObject)
            else if step.hasUnknownField then fault == Some(UnknownStepField)
            else if !step.afterDays.Integer? then fault == Some(DelayNotAnInteger)
            else if step.afterDays.n < 0 || step.afterDays.n > 3650 then fault == Some(DelayOutOfRange)
            else if step.afterDays.n in seen then fault == Some(DuplicateDelay)
            else if !exists r :: Names(step.recipient, r) then fault == Some(UnknownRecipient)
            else if step.channel.Some? && Fold(step.channel.value) != "in_app" then fault == Some(UnavailableChannel)
            else fault == None
  {
    hide Fold, Names, RecipientOf;
    if step.StepObject? {
      RecipientIs(step.recipient);
    }
  }

  lemma RecipientIs(text: Option<string>)
    ensures RecipientOf(text).None? <==> !exists r :: Names(text, r)
  {
    hide Fold, Names, RecipientOf;
    if r :| Names(text, r) {
      NamesIs(text, r);
    }
    if RecipientOf(text).Some? {
      NamesIs(text, RecipientOf(text).value);
    }
  }
}
