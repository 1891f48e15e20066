/** What a stored evidence policy demands, read off its own fields. */
module EvidenceTerms {
  import opened Common
  import opened Text
  import opened Tables

  // Completion

  /** The number stored under `minimum_accepted`, else under `min_accepted`, else 0. */
  predicate StoresCount(r: Requirements, n: int) {
    || r.minimumAccepted == Some(Count(n))
    || (r.minimumAccepted.None? && r.minAccepted == Some(Count(n)))
    || (r.minimumAccepted.None? && r.minAccepted.None? && n == 0)
  }

  /** An item of the list under `required_types`, or under `types` when that is absent. */
  predicate Listed(r: Requirements, item: string) {
    if r.requiredTypes.Some? then item in r.requiredTypes.value else r.types.Some? && item in r.types.value
  }

  predicate NotBlank(item: string) {
    exists i :: 0 <= i < |item| && !IsSpace(item[i])
  }

  /** An accepted artifact about the work itself: an obligation's own, or one of the occurrence. */
  predicate AcceptedFor(e: Evidence, scope: Scope) {
    && e.status == Accepted
    && scope == if e.instance.Some? then OfInstance(e.instance.value) else OfObligation(e.obligation)
  }

  function AcceptedIds(evidence: map<Id, Evidence>, scope: Scope): set<Id> {
    set e | e in evidence && AcceptedFor(evidence[e], scope)
  }

  /** The different items, stripped and folded. */
  function Items(r: Requirements): set<string> {
    if r.requiredTypes.Some? then set item | item in r.requiredTypes.value && NotBlank(item) :: Fold(item)
    else if r.types.Some? then set item | item in r.types.value && NotBlank(item) :: Fold(item)
    else {}
  }

  /** An accepted artifact of the type an item names. */
  predicate Shown(evidence: map<Id, Evidence>, scope: Scope, item: string) {
    exists e :: e in evidence && AcceptedFor(evidence[e], scope) && Lower(evidence[e].evidenceType) == Fold(item)
  }

  /** As many accepted artifacts as the stored number, as many as there are different items, and one of
      every listed type. */
  ghost predicate Demonstrated(r: Requirements, evidence: map<Id, Evidence>, scope: Scope) {
    && (exists n :: StoresCount(r, n) && |AcceptedIds(evidence, scope)| >= n)
    && |AcceptedIds(evidence, scope)| >= |Items(r)|
    && forall item :: Listed(r, item) && NotBlank(item) ==> Shown(evidence, scope, item)
  }

  lemma ItemsAreRequired(r: Requirements)
    ensures RequiredTypes(r) == Items(r)
    ensures forall t :: t in Items(r) <==> exists item :: Listed(r, item) && NotBlank(item) && Fold(item) == t
  {
    hide Strip, Fold;
    forall item: string
      ensures Strip(item) != "" <==> NotBlank(item)
    {
      StripBlankOnly(item);
    }
    forall t | t in Items(r)
      ensures exists item :: Listed(r, item) && NotBlank(item) && Fold(item) == t
    {
      if r.requiredTypes.Some? {
        var item :| item in r.requiredTypes.value && NotBlank(item) && Fold(item) == t;
        assert Listed(r, item);
      } else {
        var item :| item in r.types.value && NotBlank(item) && Fold(item) == t;
        assert Listed(r, item);
      }
    }
  }

  lemma AcceptedAre(evidence: map<Id, Evidence>, scope: Scope)
    ensures AcceptedIn(evidence, scope) == AcceptedIds(evidence, scope)
  {
  }

  lemma CountIs(r: Requirements)
    ensures MinimumAccepted(r).Failure? ==> MinimumAccepted(r) == Failure(MalformedMinimum)
    ensures MinimumAccepted(r).Success? <==> exists n :: StoresCount(r, n)
    ensures forall n :: StoresCount(r, n) ==>
              && MinimumAccepted(r).Success?
              && MinimumAccepted(r).value == if n > |RequiredTypes(r)| then n else |RequiredTypes(r)|
  {
    hide RequiredTypes;
    if MinimumAccepted(r).Success? {
      var n := if r.minimumAccepted.Some? then r.minimumAccepted.value.n
               else if r.minAccepted.Some? then r.minAccepted.value.n else 0;
      assert StoresCount(r, n);
    }
  }

  lemma ShownAreTypes(r: Requirements, evidence: map<Id, Evidence>, scope: Scope)
    ensures Items(r) <= TypesOf(evidence, AcceptedIn(evidence, scope)) <==>
              forall item :: Listed(r, item) && NotBlank(item) ==> Shown(evidence, scope, item)
  {
    hide Listed, NotBlank, Items, Fold, Lower;
    ItemsAreRequired(r);
    forall item | Listed(r, item) && NotBlank(item)
      ensures Fold(item) in TypesOf(evidence, AcceptedIn(evidence, scope)) <==> Shown(evidence, scope, item)
    {
      TypeShown(evidence, scope, item);
      assert Fold(item) in Items(r);
    }
  }

  lemma TypeShown(evidence: map<Id, Evidence>, scope: Scope, item: string)
    ensures Fold(item) in TypesOf(evidence, AcceptedIn(evidence, scope)) <==> Shown(evidence, scope, item)
  {
    hide Fold, Lower, AcceptedIn, AcceptedFor;
    AcceptedAre(evidence, scope);
  }

  /** Completion is granted exactly when the stored terms are demonstrated, whatever they are. */
  lemma CompletionIff(r: Requirements, evidence: map<Id, Evidence>, scope: Scope)
    ensures ValidateCompletion(r, evidence, scope).Success? <==> Demonstrated(r, evidence, scope)
    ensures Evidenced(r, evidence, scope) <==> Demonstrated(r, evidence, scope)
  {
    hide RequiredTypes, MinimumAccepted, TypesOf, AcceptedIn, StoresCount, Listed, NotBlank, Shown, Items, AcceptedIds;
    hide ValidateCompletion;
    CountIs(r);
    ItemsAreRequired(r);
    AcceptedAre(evidence, scope);
    ShownAreTypes(r, evidence, scope);
  }

  /** Artifacts of every listed type are as many as there are different items: the bound the code adds
      for them never refuses anything on its own. */
  lemma ItemsNeedNoCount(r: Requirements, evidence: map<Id, Evidence>, scope: Scope)
    requires forall item :: Listed(r, item) && NotBlank(item) ==> Shown(evidence, scope, item)
    ensures |AcceptedIds(evidence, scope)| >= |Items(r)|
  {
    hide Listed, NotBlank, Shown, Items, Lower, AcceptedFor;
    ShownAreTypes(r, evidence, scope);
    AcceptedAre(evidence, scope);
    TypesCount(evidence, AcceptedIds(evidence, scope));
    FewerMembers(Items(r), TypesOf(evidence, AcceptedIds(evidence, scope)));
  }

  lemma FewerMembers<T>(a: set<T>, b: set<T>)
    requires a <= b
    ensures |a| <= |b|
  {
    assert b == a + (b - a);
  }

  lemma {:induction false} TypesCount(evidence: map<Id, Evidence>, ids: set<Id>)
    requires ids <= evidence.Keys
    ensures |TypesOf(evidence, ids)| <= |ids|
    decreases |ids|
  {
    hide Lower;
    if ids == {} {
      assert TypesOf(evidence, ids) == {};
    } else {
      var e :| e in ids;
      TypesCount(evidence, ids - {e});
      assert TypesOf(evidence, ids) == TypesOf(evidence, ids - {e}) + {Lower(evidence[e].evidenceType)};
    }
  }

  /** Why completion is refused: first an unreadable number, then the listed types that are missing, then
      too few artifacts. */
  lemma CompletionRefused(r: Requirements, evidence: map<Id, Evidence>, scope: Scope)
    requires ValidateCompletion(r, evidence, scope).Failure?
    ensures var error := ValidateCompletion(r, evidence, scope).error;
            if !exists n :: StoresCount(r, n) then error == MalformedMinimum
            else if exists item :: Listed(r, item) && NotBlank(item) && !Shown(evidence, scope, item) then
              && error.MissingTypes? && error.types != {}
              && forall t :: t in error.types <==>
                   exists item :: Listed(r, item) && NotBlank(item) && Fold(item) == t && !Shown(evidence, scope, item)
            else exists n :: StoresCount(r, n) && |AcceptedIds(evidence, scope)| < n && error == TooFewAccepted(n)
  {
    hide RequiredTypes, MinimumAccepted, StoresCount, Listed, NotBlank, Shown, Items, Fold, Lower, AcceptedFor, TypesOf;
    CountIs(r);
    ItemsAreRequired(r);
    AcceptedAre(evidence, scope);
    ShownAreTypes(r, evidence, scope);
    forall item
      ensures Fold(item) in TypesOf(evidence, AcceptedIn(evidence, scope)) <==> Shown(evidence, scope, item)
    {
      TypeShown(evidence, scope, item);
    }
    if forall item :: Listed(r, item) && NotBlank(item) ==> Shown(evidence, scope, item) {
      ItemsNeedNoCount(r, evidence, scope);
      if n :| StoresCount(r, n) {
        assert MinimumAccepted(r).value == if n > |RequiredTypes(r)| then n else |RequiredTypes(r)|;
      }
    } else if n :| StoresCount(r, n) {
      MissingAre(r, evidence, scope);
    }
  }

  /** The missing types the error names. */
  lemma MissingAre(r: Requirements, evidence: map<Id, Evidence>, scope: Scope)
    requires MinimumAccepted(r).Success? && !(RequiredTypes(r) <= TypesOf(evidence, AcceptedIn(evidence, scope)))
    ensures ValidateCompletion(r, evidence, scope)
              == Failure(MissingTypes(RequiredTypes(r) - TypesOf(evidence, AcceptedIn(evidence, scope))))
    ensures RequiredTypes(r) - TypesOf(evidence, AcceptedIn(evidence, scope)) != {}
  {
    hide TypesOf, Strip, Lower;
    var t :| t in RequiredTypes(r) && t !in TypesOf(evidence, AcceptedIn(evidence, scope));
    assert t in RequiredTypes(r) - TypesOf(evidence, AcceptedIn(evidence, scope));
  }

  // Separation of duties

  /** The stored terms, and the amount at stake, ask for a reviewer other than the submitter. */
  predicate NeedsAnother(r: Requirements, monetaryValue: Option<real>) {
    || r.independentAcceptance
    || r.regulated
    || (&& r.highValueThreshold.Some? && r.highValueThreshold.value.Amount?
        && monetaryValue.Some? && monetaryValue.value >= r.highValueThreshold.value.value)
  }

  /** Neither flag is set, and the amount would have to be compared with something that is no number. */
  predicate Unreadable(r: Requirements, monetaryValue: Option<real>) {
    && !r.independentAcceptance && !r.regulated
    && monetaryValue.Some? && r.highValueThreshold == Some(NotNumeric)
  }

  lemma IndependenceIs(r: Requirements, monetaryValue: Option<real>)
    ensures RequiresIndependence(r, monetaryValue) ==
              if Unreadable(r, monetaryValue) then Failure(MalformedThreshold) else Success(NeedsAnother(r, monetaryValue))
  {
  }
}
