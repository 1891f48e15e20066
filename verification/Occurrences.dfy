/** Recurrence expansion and materialization of occurrences, as functions of the tables. */
module Occurrences {
  import opened Common
  import opened Tables

  const MAX_MATERIALIZATION_DAYS := 366
  const MAX_OCCURRENCES := 500

  /** The occurrences of a rule between two instants, both included, in order. */
  function Between(occurs: Time -> bool, lo: Time, hi: Time): (r: seq<Time>)
    ensures forall t :: t in r <==> lo <= t <= hi && occurs(t)
    ensures forall i, j :: 0 <= i < j < |r| ==> r[i] < r[j]
    decreases hi - lo
  {
    if lo > hi then []
    else
      var rest := Between(occurs, lo + 1, hi);
      assert forall j :: 0 <= j < |rest| ==> lo < rest[j] by {
        forall j | 0 <= j < |rest|
          ensures lo < rest[j]
        {
          assert rest[j] in rest;
        }
      }
      if occurs(lo) then [lo] + rest else rest
  }

  /** `expand_recurrence` */
  function Expand(rule: Recurrence, windowStart: Time, windowEnd: Time): Result<seq<Time>, Error> {
    if windowEnd < windowStart then Failure(WindowReversed)
    else if windowEnd - windowStart > MAX_MATERIALIZATION_DAYS * DAY then Failure(WindowTooLong)
    else if !rule.wellFormed then Failure(BadRecurrence)
    else if |Between(rule.occurs, windowStart, windowEnd)| > MAX_OCCURRENCES then Failure(TooManyOccurrences)
    else Success(Between(rule.occurs, windowStart, windowEnd))
  }

  predicate IsScheduledAt(db: Database, obligation: Id, t: Time) {
    exists i :: i in db.instances && db.instances[i].obligation == obligation && db.instances[i].scheduledFor == t
  }

  /** Every instant for which an obligation has an occurrence. */
  function Schedules(db: Database, obligation: Id): set<Time> {
    set i | i in db.instances && db.instances[i].obligation == obligation :: db.instances[i].scheduledFor
  }

  /** The occurrence frozen from an obligation at instant `t`. */
  function Snapshot(id: Id, o: Obligation, t: Time): Instance
    requires o.recurrence.Some?
  {
    Instance(id, t, t, Scheduled, o.owner, o.ownerSubject, o.revision, o.recurrence.value,
             o.leadTimeDays, o.policy, o.requirements, o.monetaryValue, None, 1)
  }

  /** One occurrence added, with its `generated` event. */
  function AddOccurrence(db: Database, id: Id, t: Time, actor: string): Database
    requires id in db.obligations && db.obligations[id].recurrence.Some?
  {
    var o := db.obligations[id];
    db.(instances := db.instances[db.nextId := Snapshot(id, o, t)],
        instanceEvents := db.instanceEvents +
          [InstanceEvent(db.nextId, actor, None, Some(Scheduled), Generated(o.revision, t))],
        nextId := db.nextId + 1)
  }

  /** The missing occurrences among `times` added in order, and their ids. */
  ghost function AddMissing(db: Database, id: Id, times: seq<Time>, actor: string): (r: (Database, seq<Id>))
    requires id in db.obligations && db.obligations[id].recurrence.Some?
    ensures r.0.obligations == db.obligations
  {
    if times == [] then (db, [])
    else
      var before := AddMissing(db, id, times[..|times| - 1], actor);
      var t := times[|times| - 1];
      if IsScheduledAt(before.0, id, t) then before
      else (AddOccurrence(before.0, id, t, actor), before.1 + [before.0.nextId])
  }

  /** `materialize`: the tables afterwards and the ids created. */
  ghost function Materialize(db: Database, id: Id, windowStart: Time, windowEnd: Time, actor: string)
    : (r: Result<(Database, seq<Id>), Error>)
    ensures r.Success? ==> r.value.0.obligations == db.obligations
  {
    if id !in db.obligations then Failure(NotFound)
    else
      var o := db.obligations[id];
      if o.status.Waived? || o.status.Superseded? then Failure(InvalidState(o.status))
      else if o.recurrence.None? then Failure(NoRecurrence)
      else if o.dueAt.None? then Failure(NoDueDate)
      else
        var times :- Expand(o.recurrence.value, windowStart, windowEnd);
        var (db', created) := AddMissing(db, id, times, actor);
        if created == [] then Success((db', []))
        else
          Success((db'.(events := db'.events +
            [ObligationEvent(id, actor, Some(o.status), Some(o.status), InstancesMaterialized(created))]), created))
  }
}
