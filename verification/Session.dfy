/** The database session the services mutate: one field per table. */
module DatabaseSession {
  import opened Common
  import opened Tables
  import opened Alerts
  import opened Invariants

  class Session {
    var facts: map<Id, Fact>
    var members: map<Id, Member>
    var obligations: map<Id, Obligation>
    var instances: map<Id, Instance>
    var evidence: map<Id, Evidence>
    var alerts: map<Id, Alert>
    var events: seq<ObligationEvent>
    var instanceEvents: seq<InstanceEvent>
    var outbox: seq<OutboxEvent>
    var nextId: Id

    /** The tables as one value. */
    function Tables(): Database
      reads this
    {
      Database(facts, members, obligations, instances, evidence, alerts, events, instanceEvents, outbox, nextId)
    }

    constructor ()
      ensures Tables() == EmptyDatabase
    {
      facts, members, obligations, instances := map[], map[], map[], map[];
      evidence, alerts, events, instanceEvents, outbox := map[], map[], [], [], [];
      nextId := 0;
    }

    /** `rollback`: back to the tables the transaction started from. */
    method Restore(snapshot: Database)
      modifies this
      ensures Tables() == snapshot
    {
      facts, members := snapshot.facts, snapshot.members;
      obligations, instances := snapshot.obligations, snapshot.instances;
      evidence, alerts := snapshot.evidence, snapshot.alerts;
      events, instanceEvents, outbox := snapshot.events, snapshot.instanceEvents, snapshot.outbox;
      nextId := snapshot.nextId;
    }
  }

  /** A query without ORDER BY: the selected ids in an order the caller cannot rely on. */
  method Query(selected: set<Id>) returns (rows: seq<Id>)
    ensures Lists(rows, selected)
  {
    rows := [];
    var rest := selected;
    while rest != {}
      invariant rest <= selected
      invariant NoDuplicates(rows)
      invariant forall x :: x in rows <==> x in selected && x !in rest
      decreases rest
    {
      var x :| x in rest;
      rows := rows + [x];
      rest := rest - {x};
    }
  }

  /** A query ordered by scheduled time. */
  method QueryByTime(alerts: map<Id, Alert>, selected: set<Id>) returns (rows: seq<Id>)
    requires selected <= alerts.Keys
    ensures Lists(rows, selected)
    ensures forall i :: 0 <= i < |rows| ==> rows[i] in alerts
    ensures OrderedByTime(alerts, rows)
  {
    rows := [];
    var rest := selected;
    while rest != {}
      invariant rest <= selected
      invariant NoDuplicates(rows)
      invariant forall x :: x in rows <==> x in selected && x !in rest
      invariant forall i :: 0 <= i < |rows| ==> rows[i] in alerts
      invariant OrderedByTime(alerts, rows)
      decreases rest
    {
      var x :| x in rest;
      var k := 0;
      while k < |rows| && alerts[rows[k]].spec.scheduledFor <= alerts[x].spec.scheduledFor
        invariant 0 <= k <= |rows|
        invariant forall i :: 0 <= i < k ==> alerts[rows[i]].spec.scheduledFor <= alerts[x].spec.scheduledFor
      {
        k := k + 1;
      }
      rows := InsertAt(alerts, rows, k, x);
      rest := rest - {x};
    }
  }

  /** `x` placed at position `k` of an ordered list. */
  function InsertAt(alerts: map<Id, Alert>, rows: seq<Id>, k: nat, x: Id): (r: seq<Id>)
    requires k <= |rows| && x in alerts && x !in rows && NoDuplicates(rows)
    requires forall i :: 0 <= i < |rows| ==> rows[i] in alerts
    requires OrderedByTime(alerts, rows)
    requires forall i :: 0 <= i < k ==> alerts[rows[i]].spec.scheduledFor <= alerts[x].spec.scheduledFor
    requires k < |rows| ==> alerts[x].spec.scheduledFor <= alerts[rows[k]].spec.scheduledFor
    ensures NoDuplicates(r)
    ensures forall y :: y in r <==> y in rows || y == x
    ensures forall i :: 0 <= i < |r| ==> r[i] in alerts
    ensures OrderedByTime(alerts, r)
  {
    rows[..k] + [x] + rows[k..]
  }
}
