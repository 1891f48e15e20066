/** A wanted alert is determined by the work it is about and its key. */
module WantedSpecs {
  import opened Common
  import opened EscalationPolicy
  import opened Tables
  import opened Alerts
  import opened AlertSpecs
  import opened Convergence

  lemma WantedOfInstance(db: Database, horizonEnd: Time, i: Id, s: AlertSpec)
    requires Wanted(db, horizonEnd, s) && s.instance == Some(i)
    ensures i in db.instances && IsDueByInstance(db.instances[i], horizonEnd)
    ensures s in SpecsFor(InstanceTarget(i, db.instances[i]))
  {
    hide SpecsFor;
    if o :| o in ScheduledObligations(db, horizonEnd) && s in SpecsFor(ObligationTarget(o, db.obligations[o])) {
      SpecNamesTarget(ObligationTarget(o, db.obligations[o]), s);
    } else {
      var j :| j in ScheduledInstances(db, horizonEnd) && s in SpecsFor(InstanceTarget(j, db.instances[j]));
      SpecNamesTarget(InstanceTarget(j, db.instances[j]), s);
    }
  }

  lemma WantedOfObligation(db: Database, horizonEnd: Time, s: AlertSpec)
    requires Wanted(db, horizonEnd, s) && s.instance.None?
    ensures s.obligation in db.obligations && IsDueByObligation(db.obligations[s.obligation], horizonEnd)
    ensures s in SpecsFor(ObligationTarget(s.obligation, db.obligations[s.obligation]))
  {
    hide SpecsFor;
    if o :| o in ScheduledObligations(db, horizonEnd) && s in SpecsFor(ObligationTarget(o, db.obligations[o])) {
      SpecNamesTarget(ObligationTarget(o, db.obligations[o]), s);
    } else {
      var j :| j in ScheduledInstances(db, horizonEnd) && s in SpecsFor(InstanceTarget(j, db.instances[j]));
      SpecNamesTarget(InstanceTarget(j, db.instances[j]), s);
    }
  }

  lemma SpecsAre(t: Target)
    ensures SpecsFor(t) == SpecsWith(t, t.policy)
  {
  }

  lemma SameSpec(t: Target, s: AlertSpec, other: AlertSpec)
    requires s in SpecsFor(t) && other in SpecsFor(t) && s.key == other.key
    ensures s == other
  {
    hide SpecsFor, SpecsWith;
    SpecsAre(t);
    SpecKeysDistinct(t, t.policy);
    var j :| 0 <= j < |SpecsWith(t, t.policy)| && SpecsWith(t, t.policy)[j] == s;
    var k :| 0 <= k < |SpecsWith(t, t.policy)| && SpecsWith(t, t.policy)[k] == other;
  }

  /** Two wanted alerts of the same work with the same key are the same. */
  lemma OneSpecPerKey(db: Database, horizonEnd: Time, s: AlertSpec, other: AlertSpec)
    requires Wanted(db, horizonEnd, s) && Wanted(db, horizonEnd, other)
    requires s.obligation == other.obligation && s.instance == other.instance && s.key == other.key
    ensures s == other
  {
    hide SpecsFor, Wanted;
    if s.instance.Some? {
      var i := s.instance.value;
      WantedOfInstance(db, horizonEnd, i, s);
      WantedOfInstance(db, horizonEnd, i, other);
      SameSpec(InstanceTarget(i, db.instances[i]), s, other);
    } else {
      WantedOfObligation(db, horizonEnd, s);
      WantedOfObligation(db, horizonEnd, other);
      SameSpec(ObligationTarget(s.obligation, db.obligations[s.obligation]), s, other);
    }
  }
}
