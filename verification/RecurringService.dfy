/** The recurring-obligation service: materializing occurrences and moving them. */
module RecurringServices {
  import opened Common
  import opened Tables
  import opened Workflow
  import opened Occurrences
  import opened Invariants
  import opened CyclePhases
  import opened DatabaseSession

  /** Which stored occurrence stands at each instant, for one obligation: what the method's
      dictionary must say about `t`. */
  ghost predicate Indexed(db: Database, id: Id, existing: map<Time, Id>, t: Time) {
    && (t in existing <==> IsScheduledAt(db, id, t))
    && (t in existing ==>
          && existing[t] in db.instances
          && db.instances[existing[t]].obligation == id
          && db.instances[existing[t]].scheduledFor == t)
  }

  ghost predicate IndexedAll(db: Database, id: Id, existing: map<Time, Id>, times: seq<Time>) {
    forall k :: 0 <= k < |times| ==> Indexed(db, id, existing, times[k])
  }

  /** A new occurrence at `t` is indexed by adding it, and disturbs no other instant. */
  lemma IndexGrows(db: Database, id: Id, existing: map<Time, Id>, times: seq<Time>, t: Time, actor: string)
    requires id in db.obligations && db.obligations[id].recurrence.Some?
    requires forall i :: i in db.instances ==> i < db.nextId
    requires IndexedAll(db, id, existing, times)
    ensures IndexedAll(AddOccurrence(db, id, t, actor), id, existing[t := db.nextId], times)
  {
    var d := AddOccurrence(db, id, t, actor);
    forall k | 0 <= k < |times|
      ensures Indexed(d, id, existing[t := db.nextId], times[k])
    {
      assert Indexed(db, id, existing, times[k]);
      if i :| i in db.instances && db.instances[i].obligation == id && db.instances[i].scheduledFor == times[k] {
        assert d.instances[i].scheduledFor == times[k];
      }
      if times[k] == t {
        assert d.instances[db.nextId].scheduledFor == t;
      }
    }
  }

  /** `rows` names, instant by instant, the obligation's occurrences at `times`. */
  ghost predicate Aligned(db: Database, id: Id, rows: seq<Id>, times: seq<Time>) {
    && |rows| == |times|
    && forall j :: 0 <= j < |rows| ==>
         rows[j] in db.instances && db.instances[rows[j]].obligation == id && db.instances[rows[j]].scheduledFor == times[j]
  }

  lemma OrderedAligned(indexed: Database, db: Database, id: Id, existing: map<Time, Id>, times: seq<Time>,
                       ordered: seq<Id>)
    requires IndexedAll(indexed, id, existing, times) && db.instances == indexed.instances
    requires |ordered| == |times| && forall j :: 0 <= j < |times| ==> times[j] in existing && ordered[j] == existing[times[j]]
    ensures Aligned(db, id, ordered, times)
  {
  }

  class RecurringObligationService {
    const session: Session

    constructor (session: Session)
      ensures this.session == session
    {
      this.session := session;
    }

    /** The obligation's stored occurrences at some of the given instants, by instant. */
    method ExistingAt(id: Id, times: seq<Time>) returns (existing: map<Time, Id>)
      requires OnePerTime(session.instances)
      ensures IndexedAll(session.Tables(), id, existing, times)
    {
      var rows := Query(set i | i in session.instances && session.instances[i].obligation == id
                                && session.instances[i].scheduledFor in times);
      existing := map[];
      for k := 0 to |rows|
        invariant forall t :: t in existing ==>
                    && existing[t] in session.instances
                    && session.instances[existing[t]].obligation == id
                    && session.instances[existing[t]].scheduledFor == t
        invariant forall j :: 0 <= j < k ==> rows[j] in session.instances && session.instances[rows[j]].scheduledFor in existing
      {
        assert rows[k] in rows;
        existing := existing[session.instances[rows[k]].scheduledFor := rows[k]];
      }
      forall k | 0 <= k < |times|
        ensures Indexed(session.Tables(), id, existing, times[k])
      {
        if i :| i in session.instances && session.instances[i].obligation == id && session.instances[i].scheduledFor == times[k] {
          assert i in rows;
          var j :| 0 <= j < |rows| && rows[j] == i;
          assert session.instances[rows[j]].scheduledFor in existing;
        }
      }
    }

    /** Stores the missing occurrences of the window. The list returned has, for each occurrence
        of the expansion in order, the one stored occurrence of the obligation at that instant. */
    method Materialize(id: Id, windowStart: Time, windowEnd: Time, actor: string)
      returns (r: Result<(seq<Id>, nat), Error>)
      requires OnePerTime(session.instances)
      requires forall i :: i in session.instances ==> i < session.nextId
      modifies session
      ensures var spec := Occurrences.Materialize(old(session.Tables()), id, windowStart, windowEnd, actor);
              if spec.Success? then
                && session.Tables() == spec.value.0
                && r.Success? && r.value.1 == |spec.value.1|
                && Aligned(session.Tables(), id, r.value.0,
                     Between(session.obligations[id].recurrence.value.occurs, windowStart, windowEnd))
              else
                r == Failure(spec.error) && session.Tables() == old(session.Tables())
    {
      hide Between, IsScheduledAt, OnePerTime, AddMissing, IndexedAll, Aligned;
      if id !in session.obligations {
        return Failure(NotFound);
      }
      var o := session.obligations[id];
      if o.status.Waived? || o.status.Superseded? {
        return Failure(InvalidState(o.status));
      }
      if o.recurrence.None? {
        return Failure(NoRecurrence);
      }
      if o.dueAt.None? {
        return Failure(NoDueDate);
      }
      var scheduledTimes :- Expand(o.recurrence.value, windowStart, windowEnd);
      var created, existing := AddMissingOccurrences(id, o, scheduledTimes, actor);
      ghost var indexed := session.Tables();
      if created != [] {
        session.events := session.events +
          [ObligationEvent(id, actor, Some(o.status), Some(o.status), InstancesMaterialized(created))];
      }
      var ordered := seq(|scheduledTimes|, j requires 0 <= j < |scheduledTimes| && scheduledTimes[j] in existing => existing[scheduledTimes[j]]);
      OrderedAligned(indexed, session.Tables(), id, existing, scheduledTimes, ordered);
      return Success((ordered, |created|));
    }

    /** The loop over the expansion: what is already stored is kept, the rest is added. */
    method AddMissingOccurrences(id: Id, o: Obligation, scheduledTimes: seq<Time>, actor: string)
      returns (created: seq<Id>, existing: map<Time, Id>)
      requires id in session.obligations && session.obligations[id] == o && o.recurrence.Some?
      requires OnePerTime(session.instances)
      requires forall i :: i in session.instances ==> i < session.nextId
      modifies session
      ensures (session.Tables(), created) == AddMissing(old(session.Tables()), id, scheduledTimes, actor)
      ensures IndexedAll(session.Tables(), id, existing, scheduledTimes)
      ensures forall j :: 0 <= j < |scheduledTimes| ==> scheduledTimes[j] in existing
    {
      hide IsScheduledAt, OnePerTime;
      existing := ExistingAt(id, scheduledTimes);
      created := [];
      for k := 0 to |scheduledTimes|
        invariant (session.Tables(), created) == AddMissing(old(session.Tables()), id, scheduledTimes[..k], actor)
        invariant id in session.obligations && session.obligations[id] == o
        invariant forall i :: i in session.instances ==> i < session.nextId
        invariant IndexedAll(session.Tables(), id, existing, scheduledTimes)
        invariant forall j :: 0 <= j < k ==> scheduledTimes[j] in existing
      {
        var t := scheduledTimes[k];
        assert scheduledTimes[..k + 1][..k] == scheduledTimes[..k];
        assert Indexed(session.Tables(), id, existing, t);
        if t !in existing {
          IndexGrows(session.Tables(), id, existing, scheduledTimes, t, actor);
          AddInstance(id, o, t, actor);
          created := created + [session.nextId - 1];
          existing := existing[t := session.nextId - 1];
        }
      }
      assert scheduledTimes[..|scheduledTimes|] == scheduledTimes;
    }

    method AddInstance(id: Id, o: Obligation, t: Time, actor: string)
      requires id in session.obligations && session.obligations[id] == o && o.recurrence.Some?
      modifies session
      ensures session.Tables() == AddOccurrence(old(session.Tables()), id, t, actor)
      ensures session.nextId == old(session.nextId) + 1
    {
      var i := session.nextId;
      session.nextId := i + 1;
      session.instances := session.instances[i := Snapshot(id, o, t)];
      session.instanceEvents := session.instanceEvents +
        [InstanceEvent(i, actor, None, Some(Scheduled), Generated(o.revision, t))];
    }

    method Transition(obligation: Id, id: Id, to: Status, expected: nat, actor: Actor, now: Time)
      returns (r: Result<Instance, Error>)
      modifies session
      ensures var spec := Workflow.TransitionInstance(old(session.Tables()), obligation, id, to, expected, actor, now);
              if spec.Success? then
                session.Tables() == spec.value && r == Success(spec.value.instances[id])
              else
                r == Failure(spec.error) && session.Tables() == old(session.Tables())
    {
      hide ValidateCompletion, Evidenced, InstanceTransitions;
      if id !in session.instances || session.instances[id].obligation != obligation {
        return Failure(NotFound);
      }
      var i := session.instances[id];
      if i.revision != expected {
        return Failure(StaleRevision(expected, i.revision));
      }
      if i.owner != Some(actor.member) && !actor.mayManage {
        return Failure(AccessDenied);
      }
      if to !in InstanceTransitions(i.status) {
        return Failure(InvalidTransition(i.status, to));
      }
      if to.Completed? {
        var _ :- ValidateCompletion(i.requirements, session.evidence, OfInstance(id));
      }
      var previousStatus := i.status;
      i := i.(status := to);
      i := i.(completedAt := if to.Completed? then Some(now) else None);
      i := i.(revision := i.revision + 1);
      session.instances := session.instances[id := i];
      session.instanceEvents := session.instanceEvents +
        [InstanceEvent(id, actor.subject, Some(previousStatus), Some(to),
           if previousStatus.Completed? || previousStatus.Waived? then InstanceReopened(i.revision)
           else InstanceStatusChanged(i.revision))];
      return Success(i);
    }
  }
}
