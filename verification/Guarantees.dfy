/** What the invariant promises, for every state of every run. */
module Guarantees {
  import opened Common
  import opened EscalationPolicy
  import opened Tables
  import opened EvidenceTerms
  import opened Workflow
  import opened Alerts
  import opened EventLog
  import opened Invariants
  import opened Runs

  // Completed means evidenced

  /** In every reachable state completed work has what its own terms ask for: as many accepted artifacts
      in its own scope as the stored number, and one of every listed type. And no accepted artifact was
      reviewed by its submitter if the obligation, or the occurrence's frozen copy of it, is flagged for
      independent acceptance or as regulated, or is worth its threshold. */
  lemma CompletedMeansEvidenced(states: seq<Database>, commands: seq<Command>, n: nat)
    requires IsRun(states, commands)
    requires n < |states|
    ensures forall o :: o in states[n].obligations && states[n].obligations[o].status.Completed? ==>
              Evidenced(states[n].obligations[o].requirements, states[n].evidence, OfObligation(o))
    ensures forall i :: i in states[n].instances && states[n].instances[i].status.Completed? ==>
              Evidenced(states[n].instances[i].requirements, states[n].evidence, OfInstance(i))
    ensures forall e :: e in states[n].evidence && states[n].evidence[e].status.Accepted? ==>
              IndependentlyAccepted(states[n], states[n].evidence[e])
    ensures forall o :: o in states[n].obligations && states[n].obligations[o].status == Completed ==>
              Demonstrated(states[n].obligations[o].requirements, states[n].evidence, OfObligation(o))
    ensures forall i :: i in states[n].instances && states[n].instances[i].status == Completed ==>
              Demonstrated(states[n].instances[i].requirements, states[n].evidence, OfInstance(i))
    ensures forall e :: e in states[n].evidence && states[n].evidence[e].status == Accepted ==>
              SeparatelyAccepted(states[n], states[n].evidence[e])
  {
    hide IsRun, Evidenced, Demonstrated, IndependentlyAccepted, SeparatelyAccepted;
    RunInv(states, commands, n);
    EvidenceGuarantee(states[n]);
    hide Inv;
    var db := states[n];
    forall o | o in db.obligations
      ensures Evidenced(db.obligations[o].requirements, db.evidence, OfObligation(o)) <==>
                Demonstrated(db.obligations[o].requirements, db.evidence, OfObligation(o))
    {
      CompletionIff(db.obligations[o].requirements, db.evidence, OfObligation(o));
    }
    forall i | i in db.instances
      ensures Evidenced(db.instances[i].requirements, db.evidence, OfInstance(i)) <==>
                Demonstrated(db.instances[i].requirements, db.evidence, OfInstance(i))
    {
      CompletionIff(db.instances[i].requirements, db.evidence, OfInstance(i));
    }
    forall e | e in db.evidence && db.evidence[e].status.Accepted?
      ensures SeparatelyAccepted(db, db.evidence[e])
    {
      SeparationIs(db, db.evidence[e]);
    }
  }

  /** Reviewed by somebody else, if the terms of the obligation or of the occurrence ask for it. */
  predicate SeparatelyAccepted(db: Database, e: Evidence) {
    && e.obligation in db.obligations && (e.instance.Some? ==> e.instance.value in db.instances)
    && (|| NeedsAnother(db.obligations[e.obligation].requirements, db.obligations[e.obligation].monetaryValue)
        || (e.instance.Some? && NeedsAnother(db.instances[e.instance.value].requirements,
                                             db.instances[e.instance.value].monetaryValue))
        ==> e.reviewedBy.Some? && e.reviewedBy.value != e.submittedBy)
  }

  lemma SeparationIs(db: Database, e: Evidence)
    requires IndependentlyAccepted(db, e)
    ensures SeparatelyAccepted(db, e)
  {
    hide RequiresIndependence;
    IndependenceIs(db.obligations[e.obligation].requirements, db.obligations[e.obligation].monetaryValue);
    if e.instance.Some? {
      var i := db.instances[e.instance.value];
      IndependenceIs(i.requirements, i.monetaryValue);
    }
  }

  /** Neither the obligation's policy nor the occurrence's frozen copy asked for a reviewer that
      the artifact did not have. */
  ghost predicate IndependentlyAccepted(db: Database, e: Evidence) {
    && e.obligation in db.obligations
    && (RequiresIndependence(db.obligations[e.obligation].requirements, db.obligations[e.obligation].monetaryValue) == Success(true) ==>
          e.reviewedBy.Some? && e.reviewedBy.value != e.submittedBy)
    && (e.instance.Some? ==>
          && e.instance.value in db.instances
          && (RequiresIndependence(db.instances[e.instance.value].requirements, db.instances[e.instance.value].monetaryValue) == Success(true) ==>
                e.reviewedBy.Some? && e.reviewedBy.value != e.submittedBy))
  }

  lemma EvidenceGuarantee(db: Database)
    requires Inv(db)
    ensures CompletedEvidenced(db.obligations, db.instances, db.evidence)
    ensures forall e :: e in db.evidence && db.evidence[e].status.Accepted? ==> IndependentlyAccepted(db, db.evidence[e])
  {
    hide RequiresIndependence, Canonical, AlertOk, Evidenced, CompletedEvidenced;
    hide Fresh, OnePerFact, OnePerTime, OnePerHash, OnePerKey;
    hide ObligationLog, InstanceLog, AlertLog, InstanceAlertLog, Delivered;
  }

  // The logs as chains of statuses

  /** The status the last status-bearing event of a row leaves it in. */
  function LastStatus(log: seq<ObligationEvent>, id: Id): Option<Status> {
    if log == [] then None
    else
      var e := log[|log| - 1];
      if e.obligation == id && e.to.Some? then e.to else LastStatus(log[..|log| - 1], id)
  }

  /** Each status-bearing event starts from the status the previous one ended in. */
  ghost predicate StatusChain(log: seq<ObligationEvent>, id: Id) {
    forall k :: 0 <= k < |log| && log[k].obligation == id && log[k].to.Some? ==>
      log[k].from == LastStatus(log[..k], id)
  }

  predicate IsMutation(change: Change) {
    !change.AlertChanged? && !change.InstancesMaterialized?
  }

  /** How many events created or changed the row. */
  function Mutations(log: seq<ObligationEvent>, id: Id): nat {
    if log == [] then 0
    else
      var e := log[|log| - 1];
      Mutations(log[..|log| - 1], id) + if e.obligation == id && IsMutation(e.change) then 1 else 0
  }

  /** Who owns the row after the last ownership event. */
  function LastOwner(log: seq<ObligationEvent>, id: Id): Option<Id> {
    if log == [] then None
    else
      var e := log[|log| - 1];
      if e.obligation == id && e.change.Created? then e.change.owner
      else if e.obligation == id && e.change.OwnerSet? then e.change.owner
      else LastOwner(log[..|log| - 1], id)
  }

  lemma {:induction false} ReplayIsChain(log: seq<ObligationEvent>, id: Id)
    requires !Replay(log, id).Broken?
    ensures StatusChain(log, id)
    ensures Replay(log, id).Unborn? ==> LastStatus(log, id).None? && Mutations(log, id) == 0 && LastOwner(log, id).None?
    ensures Replay(log, id).Live? ==>
              && LastStatus(log, id) == Some(Replay(log, id).p.status)
              && Mutations(log, id) == Replay(log, id).p.revision
              && LastOwner(log, id) == Replay(log, id).p.owner
  {
    if log != [] {
      var init, e := log[..|log| - 1], log[|log| - 1];
      ReplayIsChain(init, id);
      forall k | 0 <= k < |log| && log[k].obligation == id && log[k].to.Some?
        ensures log[k].from == LastStatus(log[..k], id)
      {
        if k < |init| {
          assert init[k] == log[k];
          assert init[..k] == log[..k];
        } else {
          assert log[..k] == init;
        }
      }
    }
  }

  /** In every reachable state an obligation's row is what its log says: the statuses chain up to
      its status, its revision counts its mutations, its owner is the last one recorded; and it is
      unassigned exactly when unowned and dated complete exactly when completed. */
  lemma LogExplainsObligation(states: seq<Database>, commands: seq<Command>, n: nat, id: Id)
    requires IsRun(states, commands)
    requires n < |states| && id in states[n].obligations
    ensures Replay(states[n].events, id) == Live(ProjectionOf(states[n].obligations[id]))
    ensures StatusChain(states[n].events, id)
    ensures LastStatus(states[n].events, id) == Some(states[n].obligations[id].status)
    ensures Mutations(states[n].events, id) == states[n].obligations[id].revision
    ensures LastOwner(states[n].events, id) == states[n].obligations[id].owner
    ensures states[n].obligations[id].status.Unassigned? <==> states[n].obligations[id].owner.None?
    ensures states[n].obligations[id].completedAt.Some? <==> states[n].obligations[id].status.Completed?
  {
    hide IsRun, Inv;
    RunInv(states, commands, n);
    RowOf(states[n], id);
    ObligationReplay(states[n], id);
    ReplayIsChain(states[n].events, id);
  }

  lemma ObligationReplay(db: Database, id: Id)
    requires Inv(db) && id in db.obligations
    ensures Replay(db.events, id) == Live(ProjectionOf(db.obligations[id]))
  {
  }

  /** The status an occurrence's last status-bearing event leaves it in. */
  function LastInstanceStatus(log: seq<InstanceEvent>, id: Id): Option<Status> {
    if log == [] then None
    else
      var e := log[|log| - 1];
      if e.instance == id && e.to.Some? then e.to else LastInstanceStatus(log[..|log| - 1], id)
  }

  /** Each status-bearing event of an occurrence starts from the status the previous one ended in. */
  ghost predicate InstanceStatusChain(log: seq<InstanceEvent>, id: Id) {
    forall k :: 0 <= k < |log| && log[k].instance == id && log[k].to.Some? ==>
      log[k].from == LastInstanceStatus(log[..k], id)
  }

  /** How many events generated or changed the occurrence. */
  function InstanceMutations(log: seq<InstanceEvent>, id: Id): nat {
    if log == [] then 0
    else
      var e := log[|log| - 1];
      InstanceMutations(log[..|log| - 1], id) + if e.instance == id && !e.change.InstanceAlertChanged? then 1 else 0
  }

  lemma {:induction false} InstanceReplayIsChain(log: seq<InstanceEvent>, id: Id)
    requires !ReplayInstance(log, id).Inconsistent?
    ensures InstanceStatusChain(log, id)
    ensures ReplayInstance(log, id).NotGenerated? ==>
              LastInstanceStatus(log, id).None? && InstanceMutations(log, id) == 0
    ensures ReplayInstance(log, id).Running? ==>
              && LastInstanceStatus(log, id) == Some(ReplayInstance(log, id).p.status)
              && InstanceMutations(log, id) == ReplayInstance(log, id).p.revision
  {
    if log != [] {
      var init, e := log[..|log| - 1], log[|log| - 1];
      InstanceReplayIsChain(init, id);
      forall k | 0 <= k < |log| && log[k].instance == id && log[k].to.Some?
        ensures log[k].from == LastInstanceStatus(log[..k], id)
      {
        if k < |init| {
          assert init[k] == log[k] && init[..k] == log[..k];
        }
      }
    }
  }

  /** In every reachable state an occurrence's row is what its own log says: the statuses chain up to its
      status, its revision counts the events that generated or changed it, and it is dated complete
      exactly when completed. */
  lemma LogExplainsInstance(states: seq<Database>, commands: seq<Command>, n: nat, id: Id)
    requires IsRun(states, commands)
    requires n < |states| && id in states[n].instances
    ensures ReplayInstance(states[n].instanceEvents, id) == Running(InstanceProjectionOf(states[n].instances[id]))
    ensures InstanceStatusChain(states[n].instanceEvents, id)
    ensures LastInstanceStatus(states[n].instanceEvents, id) == Some(states[n].instances[id].status)
    ensures InstanceMutations(states[n].instanceEvents, id) == states[n].instances[id].revision
    ensures states[n].instances[id].completedAt.Some? <==> states[n].instances[id].status.Completed?
  {
    hide IsRun, Inv;
    RunInv(states, commands, n);
    InstanceRowOf(states[n], id);
    InstanceReplay(states[n], id);
    InstanceReplayIsChain(states[n].instanceEvents, id);
  }

  lemma InstanceReplay(db: Database, id: Id)
    requires Inv(db) && id in db.instances
    ensures ReplayInstance(db.instanceEvents, id) == Running(InstanceProjectionOf(db.instances[id]))
  {
  }

  // Exactly-once delivery

  lemma {:induction false} DeliveredAt(outbox: seq<OutboxEvent>, k: nat)
    requires k < |outbox|
    ensures outbox[k].payload in Deliveries(outbox, outbox[k].alert)
  {
    if k < |outbox| - 1 {
      DeliveredAt(outbox[..|outbox| - 1], k);
    }
  }

  lemma {:induction false} DeliveredTwice(outbox: seq<OutboxEvent>, j: nat, k: nat)
    requires j < k < |outbox| && outbox[j].alert == outbox[k].alert
    ensures |Deliveries(outbox, outbox[k].alert)| >= 2
  {
    if k < |outbox| - 1 {
      DeliveredTwice(outbox[..|outbox| - 1], j, k);
    } else {
      DeliveredAt(outbox[..|outbox| - 1], j);
    }
  }

  lemma {:induction false} DeliveredSomewhere(outbox: seq<OutboxEvent>, alert: Id)
    requires Deliveries(outbox, alert) != []
    ensures exists k :: 0 <= k < |outbox| && outbox[k].alert == alert
  {
    var last := outbox[|outbox| - 1];
    if last.alert != alert {
      DeliveredSomewhere(outbox[..|outbox| - 1], alert);
      var k :| 0 <= k < |outbox| - 1 && outbox[..|outbox| - 1][k].alert == alert;
      assert outbox[k].alert == alert;
    }
  }

  /** In every reachable state the outbox and the alerts with a delivery time correspond one to
      one: no message is lost, doubled or invented, and each carries its alert's own content. */
  lemma ExactlyOnceDelivery(states: seq<Database>, commands: seq<Command>, n: nat)
    requires IsRun(states, commands)
    requires n < |states|
    ensures forall k :: 0 <= k < |states[n].outbox| ==>
              && states[n].outbox[k].alert in states[n].alerts
              && states[n].alerts[states[n].outbox[k].alert].readyAt.Some?
              && states[n].alerts[states[n].outbox[k].alert].spec == states[n].outbox[k].payload
    ensures forall j, k :: 0 <= j < k < |states[n].outbox| ==> states[n].outbox[j].alert != states[n].outbox[k].alert
    ensures forall a :: a in states[n].alerts && states[n].alerts[a].readyAt.Some? ==>
              exists k :: 0 <= k < |states[n].outbox| && states[n].outbox[k].alert == a
  {
    hide IsRun;
    RunInv(states, commands, n);
    hide Rows, Fresh, OnePerFact, OnePerTime, OnePerHash, OnePerKey, CompletedEvidenced;
    hide ObligationLog, InstanceLog, AlertLog, InstanceAlertLog;
    DeliveredOneToOne(states[n].alerts, states[n].outbox);
  }

  lemma DeliveredOneToOne(alerts: map<Id, Alert>, outbox: seq<OutboxEvent>)
    requires Delivered(alerts, outbox)
    ensures forall k :: 0 <= k < |outbox| ==>
              outbox[k].alert in alerts && alerts[outbox[k].alert].readyAt.Some? && alerts[outbox[k].alert].spec == outbox[k].payload
    ensures forall j, k :: 0 <= j < k < |outbox| ==> outbox[j].alert != outbox[k].alert
    ensures forall a :: a in alerts && alerts[a].readyAt.Some? ==> exists k :: 0 <= k < |outbox| && outbox[k].alert == a
  {
    hide Deliveries;
    forall k | 0 <= k < |outbox|
      ensures outbox[k].alert in alerts && alerts[outbox[k].alert].readyAt.Some? && alerts[outbox[k].alert].spec == outbox[k].payload
    {
      DeliveredAt(outbox, k);
    }
    forall j, k | 0 <= j < k < |outbox|
      ensures outbox[j].alert != outbox[k].alert
    {
      if outbox[j].alert == outbox[k].alert {
        DeliveredTwice(outbox, j, k);
      }
    }
    forall a | a in alerts && alerts[a].readyAt.Some?
      ensures exists k :: 0 <= k < |outbox| && outbox[k].alert == a
    {
      DeliveredSomewhere(outbox, a);
    }
  }

  /** In every reachable state an alert's revision is one more than the steps both logs record for
      it: 1 exactly while scheduled, never above 3; and its constraints hold. */
  lemma AlertRevisionCountsSteps(states: seq<Database>, commands: seq<Command>, n: nat, a: Id)
    requires IsRun(states, commands)
    requires n < |states| && a in states[n].alerts
    ensures var alert := states[n].alerts[a];
            && AlertSteps(states[n].events, a) == HistoryOf(alert)
            && (alert.spec.instance.Some? ==> InstanceAlertSteps(states[n].instanceEvents, a) == HistoryOf(alert))
            && alert.revision == 1 + |AlertSteps(states[n].events, a)|
            && 1 <= alert.revision <= 3
            && (alert.revision == 1 <==> alert.status.AlertScheduled?)
            && SpecOk(alert.spec)
  {
    hide IsRun, Inv;
    RunInv(states, commands, n);
    AlertGuarantee(states[n], a);
  }

  lemma AlertGuarantee(db: Database, a: Id)
    requires Inv(db) && a in db.alerts
    ensures AlertOk(db.alerts[a])
    ensures AlertSteps(db.events, a) == HistoryOf(db.alerts[a])
    ensures db.alerts[a].spec.instance.Some? ==> InstanceAlertSteps(db.instanceEvents, a) == HistoryOf(db.alerts[a])
  {
  }

  // Uniqueness

  /** In every reachable state: one obligation per fact, one occurrence per obligation and instant,
      one artifact per scope and content, one alert per key. */
  lemma IdempotencyKeysUnique(states: seq<Database>, commands: seq<Command>, n: nat)
    requires IsRun(states, commands)
    requires n < |states|
    ensures OnePerFact(states[n].obligations)
    ensures OnePerTime(states[n].instances)
    ensures OnePerHash(states[n].evidence)
    ensures OnePerKey(states[n].alerts)
  {
    hide IsRun;
    RunInv(states, commands, n);
    hide Rows, Fresh, CompletedEvidenced, OnePerFact, OnePerTime, OnePerHash, OnePerKey;
    hide ObligationLog, InstanceLog, AlertLog, InstanceAlertLog, Delivered;
  }
}
