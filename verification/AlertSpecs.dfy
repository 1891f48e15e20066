/** The alerts of one target: distinct keys, growing escalation times, and a recipient for each. */
module AlertSpecs {
  import opened Common
  import opened EscalationPolicy
  import opened Tables
  import opened Alerts
  import opened Invariants

  /** Every alert of a target has its own kind and level. */
  lemma SpecAt(t: Target, steps: seq<EscalationStep>, i: nat)
    requires i < |SpecsWith(t, steps)|
    ensures var s, own := SpecsWith(t, steps)[i], |OwnSpecs(t)|;
            && SpecOk(s)
            && s.key == AlertKey(t.Subject(), t.dueAt, s.kind, s.level)
            && (i == 0 ==> s.kind.Due? && s.level == 0 && s.scheduledFor == t.dueAt)
            && (0 < i < own ==> s.kind.Reminder? && s.level == 0 && s.scheduledFor == t.dueAt - t.leadTimeDays * DAY)
            && (i >= own ==> s == EscalationSpec(t, steps, i - own))
  {
  }

  /** The alerts a target gets have pairwise distinct idempotency keys, and every one of them has an
      owner or a role to go to and a positive level exactly if it is an escalation. */
  lemma SpecKeysDistinct(t: Target, steps: seq<EscalationStep>)
    ensures forall i :: 0 <= i < |SpecsWith(t, steps)| ==> SpecOk(SpecsWith(t, steps)[i])
    ensures forall i, j :: 0 <= i < j < |SpecsWith(t, steps)| ==> SpecsWith(t, steps)[i].key != SpecsWith(t, steps)[j].key
  {
  }

  lemma SpecsCount(t: Target, steps: seq<EscalationStep>)
    ensures |SpecsWith(t, steps)| == |OwnSpecs(t)| + |steps|
  {
  }

  lemma OwnCount(t: Target)
    ensures |OwnSpecs(t)| == if t.leadTimeDays > 0 then 2 else 1
  {
  }

  /** Under a normalized policy a target's escalations come strictly later level by level. */
  lemma EscalationsGrow(t: Target, policy: RawPolicy, i: nat, j: nat)
    requires Acceptable(policy) && i < j < |SpecsWith(t, CanonicalOf(policy))|
    requires var specs := SpecsWith(t, CanonicalOf(policy)); specs[i].kind.Escalation? && specs[j].kind.Escalation?
    ensures var specs := SpecsWith(t, CanonicalOf(policy));
            specs[i].level < specs[j].level && specs[i].scheduledFor < specs[j].scheduledFor
  {
    hide SpecsWith, OwnSpecs, CanonicalOf, Acceptable;
    CanonicalOfIsCanonical(policy);
    var steps := CanonicalOf(policy);
    SpecAt(t, steps, i);
    SpecAt(t, steps, j);
    OwnCount(t);
    SpecsCount(t, steps);
    var a, b := steps[i - |OwnSpecs(t)|].afterDays, steps[j - |OwnSpecs(t)|].afterDays;
    assert a < b;
    assert a * DAY < b * DAY;
  }

  /** Targets of different subjects, or of one subject at different due times, never share a key. */
  lemma KeysOfTargetsDisjoint(t: Target, u: Target, steps: seq<EscalationStep>, steps': seq<EscalationStep>,
                              i: nat, j: nat)
    requires i < |SpecsWith(t, steps)| && j < |SpecsWith(u, steps')|
    requires SpecsWith(t, steps)[i].key == SpecsWith(u, steps')[j].key
    ensures t.Subject() == u.Subject() && t.dueAt == u.dueAt
  {
  }
}
