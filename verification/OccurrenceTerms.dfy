/** When occurrences may be generated, and what each is created with, field by field. */
module OccurrenceTerms {
  import opened Common
  import opened Tables
  import opened Occurrences
  import opened CyclePhases

  /** The instants of a rule in a window, both ends included. */
  function Instants(occurs: Time -> bool, windowStart: Time, windowEnd: Time): set<Time> {
    set t | windowStart <= t <= windowEnd && occurs(t)
  }

  lemma InstantsBetween(occurs: Time -> bool, windowStart: Time, windowEnd: Time)
    ensures |Between(occurs, windowStart, windowEnd)| == |Instants(occurs, windowStart, windowEnd)|
  {
    hide Between;
    ListsLength(Between(occurs, windowStart, windowEnd), Instants(occurs, windowStart, windowEnd));
  }

  /** Occurrences are generated for work that repeats from a due date and was neither waived nor
      superseded, in a window that runs forward over at most 366 days, for a well-formed rule with at
      most 500 instants there. The first of these that fails is the error. */
  lemma MaterializeAnswers(db: Database, id: Id, windowStart: Time, windowEnd: Time, actor: string)
    requires id in db.obligations
    ensures var o, r := db.obligations[id], Materialize(db, id, windowStart, windowEnd, actor);
            if o.status == Waived || o.status == Superseded then r == Failure(InvalidState(o.status))
            else if o.recurrence == None then r == Failure(NoRecurrence)
            else if o.dueAt == None then r == Failure(NoDueDate)
            else if windowStart > windowEnd then r == Failure(WindowReversed)
            else if windowEnd > windowStart + 366 * 86_400_000_000 then r == Failure(WindowTooLong)
            else if !o.recurrence.value.wellFormed then r == Failure(BadRecurrence)
            else if |Instants(o.recurrence.value.occurs, windowStart, windowEnd)| > 500 then
              r == Failure(TooManyOccurrences)
            else r.Success?
  {
    hide Between, AddMissing;
    if db.obligations[id].recurrence.Some? {
      InstantsBetween(db.obligations[id].recurrence.value.occurs, windowStart, windowEnd);
    }
  }

  lemma MaterializeUnknown(db: Database, id: Id, windowStart: Time, windowEnd: Time, actor: string)
    ensures Materialize(db, id, windowStart, windowEnd, actor) == Failure(NotFound) <==> id !in db.obligations
  {
    if id in db.obligations {
      MaterializeAnswers(db, id, windowStart, windowEnd, actor);
    }
  }

  /** The log entry of one generated occurrence. */
  function GeneratedEvent(id: Id, i: Instance, actor: string): InstanceEvent {
    InstanceEvent(id, actor, None, Some(Scheduled), Generated(i.sourceRevision, i.scheduledFor))
  }

  /** New occurrences and their log entries follow the old ones, in order. */
  ghost predicate Appends(db: Database, d: Database, created: seq<Id>, actor: string) {
    && d.nextId == db.nextId + |created|
    && (forall j :: 0 <= j < |created| ==> created[j] == db.nextId + j)
    && (forall i :: i in d.instances <==> i in db.instances || db.nextId <= i < d.nextId)
    && |d.instanceEvents| == |db.instanceEvents| + |created|
    && db.instanceEvents <= d.instanceEvents
    && forall j :: 0 <= j < |created| ==>
         d.instanceEvents[|db.instanceEvents| + j] == GeneratedEvent(created[j], d.instances[created[j]], actor)
  }

  /** Each new occurrence is the obligation's, at one of the instants, where there was none. */
  ghost predicate FillsGaps(db: Database, d: Database, id: Id, times: seq<Time>, created: seq<Id>) {
    && (forall i :: i in db.instances ==> i in d.instances && d.instances[i] == db.instances[i])
    && forall j :: 0 <= j < |created| ==>
         && created[j] in d.instances && created[j] < d.nextId && d.instances[created[j]].obligation == id
         && d.instances[created[j]].scheduledFor in times
         && !IsScheduledAt(db, id, d.instances[created[j]].scheduledFor)
  }

  lemma {:induction false} AddMissingAppends(db: Database, id: Id, times: seq<Time>, actor: string)
    requires id in db.obligations && db.obligations[id].recurrence.Some?
    requires forall i :: i in db.instances ==> i < db.nextId
    ensures var (d, created) := AddMissing(db, id, times, actor);
            Appends(db, d, created, actor) && FillsGaps(db, d, id, times, created)
  {
    hide Appends, FillsGaps, IsScheduledAt, Snapshot;
    if times == [] {
      AppendsNone(db, id, actor);
    } else {
      var init, t := times[..|times| - 1], times[|times| - 1];
      AddMissingAppends(db, id, init, actor);
      var (before, created) := AddMissing(db, id, init, actor);
      FillsMore(db, before, id, init, times, created);
      if !IsScheduledAt(before, id, t) {
        AppendsOne(db, before, id, t, created, actor);
        FillsOne(db, before, id, t, times, created, actor);
      }
    }
  }

  lemma AppendsNone(db: Database, id: Id, actor: string)
    requires forall i :: i in db.instances ==> i < db.nextId
    ensures Appends(db, db, [], actor) && FillsGaps(db, db, id, [], [])
  {
  }

  lemma FillsMore(db: Database, d: Database, id: Id, init: seq<Time>, times: seq<Time>, created: seq<Id>)
    requires FillsGaps(db, d, id, init, created) && init <= times
    ensures FillsGaps(db, d, id, times, created)
  {
    hide IsScheduledAt;
  }

  lemma FillsOne(db: Database, before: Database, id: Id, t: Time, times: seq<Time>, created: seq<Id>, actor: string)
    requires id in before.obligations && before.obligations[id].recurrence.Some? && t in times
    requires forall i :: i in db.instances ==> i < before.nextId
    requires FillsGaps(db, before, id, times, created) && !IsScheduledAt(before, id, t)
    ensures FillsGaps(db, AddOccurrence(before, id, t, actor), id, times, created + [before.nextId])
  {
    NotScheduledEarlier(db, before, id, t);
    hide IsScheduledAt;
  }

  lemma NotScheduledEarlier(db: Database, before: Database, id: Id, t: Time)
    requires forall i :: i in db.instances ==> i in before.instances && before.instances[i] == db.instances[i]
    requires !IsScheduledAt(before, id, t)
    ensures !IsScheduledAt(db, id, t)
  {
  }

  lemma AppendsOne(db: Database, before: Database, id: Id, t: Time, created: seq<Id>, actor: string)
    requires id in before.obligations && before.obligations[id].recurrence.Some?
    requires Appends(db, before, created, actor)
    ensures Appends(db, AddOccurrence(before, id, t, actor), created + [before.nextId], actor)
    ensures before.nextId >= db.nextId
  {
  }

  /** What generating does. The new occurrences are those at the window's instants that had none, one
      each, with the obligation's owner, terms and revision of that moment, due when they are scheduled.
      They are logged one by one and, if there are any, once under the obligation; nothing else changes. */
  lemma NewOccurrences(db: Database, id: Id, windowStart: Time, windowEnd: Time, actor: string)
    requires Materialize(db, id, windowStart, windowEnd, actor).Success?
    requires forall i :: i in db.instances ==> i < db.nextId
    ensures id in db.obligations && db.obligations[id].recurrence.Some?
    ensures var (d, created) := Materialize(db, id, windowStart, windowEnd, actor).value;
            var o := db.obligations[id];
            && Appends(db, d, created, actor)
            && (forall i :: i in db.instances ==> d.instances[i] == db.instances[i])
            && (forall j :: 0 <= j < |created| ==>
                  var i := d.instances[created[j]];
                  var t := i.scheduledFor;
                  && windowStart <= t <= windowEnd && o.recurrence.value.occurs(t) && !IsScheduledAt(db, id, t)
                  && i == Instance(id, t, t, Scheduled, o.owner, o.ownerSubject, o.revision, o.recurrence.value,
                                   o.leadTimeDays, o.policy, o.requirements, o.monetaryValue, None, 1))
            && d == db.(instances := d.instances, instanceEvents := d.instanceEvents, nextId := d.nextId,
                        events := db.events + if created == [] then [] else
                          [ObligationEvent(id, actor, Some(o.status), Some(o.status), InstancesMaterialized(created))])
  {
    hide Between, AddMissing, IsScheduledAt;
    var o := db.obligations[id];
    var times := Between(o.recurrence.value.occurs, windowStart, windowEnd);
    MaterializeRows(db, id, windowStart, windowEnd, actor);
    AddMissingAppends(db, id, times, actor);
    AddMissingRows(db, id, times, actor);
    AddMissingFrame(db, id, times, actor);
    AppendsCreated(db, AddMissing(db, id, times, actor).0, AddMissing(db, id, times, actor).1, actor);
  }

  lemma AppendsCreated(db: Database, d: Database, created: seq<Id>, actor: string)
    requires Appends(db, d, created, actor) && forall i :: i in db.instances ==> i < db.nextId
    ensures forall j :: 0 <= j < |created| ==> created[j] in d.instances && created[j] !in db.instances
    ensures created == [] ==> d.nextId == db.nextId && d.instanceEvents == db.instanceEvents
  {
  }

  lemma {:induction false} AddMissingFrame(db: Database, id: Id, times: seq<Time>, actor: string)
    requires id in db.obligations && db.obligations[id].recurrence.Some?
    ensures var (d, created) := AddMissing(db, id, times, actor);
            && d == db.(instances := d.instances, instanceEvents := d.instanceEvents, nextId := d.nextId)
            && (created == [] ==> d == db)
  {
    hide IsScheduledAt, Snapshot;
    if times != [] {
      AddMissingFrame(db, id, times[..|times| - 1], actor);
    }
  }
}
