/** One short run after which an alert has gone to a former owner, and the present one may not take it. */
module StaleOwnerAlert {
  import opened Common
  import opened EscalationPolicy
  import opened Tables
  import opened Workflow
  import opened Occurrences
  import opened Alerts
  import opened Runs
  import SilentAlert

  const BOTH: map<Id, Member> := map[5 := Member(true, "ann"), 6 := Member(true, "bob")]
  const LATER := CycleCall(0, 1, 0, "clock")

  const BOBS_WORK :=
    Obligation(7, Active, Some(6), Some("bob"), Some(0), None, 0, [], SilentAlert.NO_DEMANDS, None, None, None, 2)
  const ANNS_SPEC := SilentAlert.DueSpec(1)
  const SENT_ALERT := Alert(ANNS_SPEC, AlertReady, 2, Some(0), None, None)
  const HANDED := ObligationEvent(0, "ann", Some(Active), Some(Active), OwnerSet(Some(5), Some(6), 2))
  const SENT := ObligationEvent(0, "clock", None, None, AlertChanged(1, DueSent))

  const Joined := SilentAlert.Alerted.(members := BOTH)
  const Handed := Joined.(obligations := map[0 := BOBS_WORK], events := [SilentAlert.CREATED, HANDED])
  const Delivered := Handed.(alerts := map[1 := SENT_ALERT], events := [SilentAlert.CREATED, HANDED, SENT],
                             outbox := [AlertReadyEvent(1, ANNS_SPEC)])

  const FIRST_ROWS := SilentAlert.NOTHING.(obligations := [0])
  const FIRST_TRACE :=
    CycleTrace(SilentAlert.Opened, SilentAlert.Opened, SilentAlert.Alerted, SilentAlert.Alerted, 0)
  const LATER_ROWS := CycleRows([], [], [0], [], [1])
  const LATER_TRACE := CycleTrace(Handed, Handed, Handed, Delivered, 0)

  lemma HandsOver()
    ensures Next(SilentAlert.Alerted, Environment(SilentAlert.FACTS, BOTH), Joined)
    ensures Next(Joined, SetOwner(0, Some(6), 1, "ann"), Handed)
  {
    assert [SilentAlert.CREATED] + [HANDED] == [SilentAlert.CREATED, HANDED];
    assert ActiveMember(Joined, Some(6)) == Success(Some("bob"));
    assert Joined.obligations[0 := BOBS_WORK] == map[0 := BOBS_WORK];
    assert Record(Joined, 0, BOBS_WORK, Some(Active), "ann", OwnerSet(Some(5), Some(6), 2)) == Handed;
  }

  lemma Queries()
    ensures RecurringObligations(Handed) == {} && CancellableAlerts(Handed) == {}
    ensures ScheduledObligations(Handed, LATER.HorizonEnd()) == {0}
    ensures ScheduledInstances(Handed, LATER.HorizonEnd()) == {}
    ensures DueAlerts(Handed, 0) == {1}
    ensures Lists<Id>([], {}) && Lists([0 as Id], {0}) && Lists([1 as Id], {1})
  {
  }

  lemma KeyStored()
    ensures AddAlerts(Handed, ObligationSpecs(Handed, [0]) + InstanceSpecs(Handed, [])) == Handed
  {
    hide AddAlerts;
    var spec := ANNS_SPEC.(owner := Some(6), ownerSubject := Some("bob"), sourceRevision := 2);
    assert ObligationSpecs(Handed, [0]) + InstanceSpecs(Handed, []) == [spec] by {
      assert [0 as Id][..0] == [];
      assert EscalationSpecs(ObligationTarget(0, BOBS_WORK), []) == [];
      assert SpecsFor(ObligationTarget(0, BOBS_WORK)) == [spec];
    }
    assert Handed.alerts[1].spec.key == spec.key;
    NotAdded(Handed, spec);
  }

  lemma NotAdded(db: Database, spec: AlertSpec)
    requires spec.key in KeysOf(db.alerts)
    ensures AddAlerts(db, [spec]) == db
  {
    assert [spec][..0] == [];
    assert AddAlerts(db, []) == db;
  }

  lemma Delivers()
    ensures ReadyAll(Handed, [1], 0, "clock") == Delivered
  {
    assert [1 as Id][..0] == [];
    assert ReadyAll(Handed, [], 0, "clock") == Handed;
    assert [SilentAlert.CREATED, HANDED] + [SENT] == [SilentAlert.CREATED, HANDED, SENT];
    assert ReadyOne(Handed, 1, 0, "clock") == Delivered;
  }

  lemma Cycles()
    ensures Next(Handed, RunCycle(LATER, UNLOCKED, LATER_ROWS, LATER_TRACE), Delivered)
  {
    hide AddAlerts, ReadyAll, ObligationSpecs, InstanceSpecs;
    hide RecurringObligations, CancellableAlerts, ScheduledObligations, ScheduledInstances, DueAlerts;
    Queries();
    KeyStored();
    Delivers();
  }

  /** A delivered alert of work that member 6 owns, which member 5 may acknowledge and member 6 may not. */
  ghost predicate SentToFormerOwner(db: Database) {
    exists a ::
      && a in db.alerts && db.alerts[a].status.AlertReady?
      && db.alerts[a].spec.obligation in db.obligations
      && db.obligations[db.alerts[a].spec.obligation].owner == Some(6)
      && AcknowledgeAlert(db, a, db.alerts[a].revision, 6, "bob", {}, false, 0) == Failure(AccessDenied)
      && AcknowledgeAlert(db, a, db.alerts[a].revision, 5, "ann", {}, false, 0).Success?
  }

  /** Work whose alert is scheduled gets another owner; the alert is delivered to the former one. */
  lemma StaleOwnerRun() returns (states: seq<Database>, commands: seq<Command>)
    ensures IsRun(states, commands)
    ensures SentToFormerOwner(states[|states| - 1])
  {
    hide Next, SentToFormerOwner;
    states := [EmptyDatabase, SilentAlert.Known, SilentAlert.Opened, SilentAlert.Alerted, Joined, Handed, Delivered];
    commands := [
      Environment(SilentAlert.FACTS, SilentAlert.MEMBERS), Create(7, SilentAlert.REQUEST, "ann"),
      RunCycle(SilentAlert.CALL, UNLOCKED, FIRST_ROWS, FIRST_TRACE),
      Environment(SilentAlert.FACTS, BOTH), SetOwner(0, Some(6), 1, "ann"),
      RunCycle(LATER, UNLOCKED, LATER_ROWS, LATER_TRACE)];
    SilentAlert.Knows();
    SilentAlert.Creates();
    SilentAlert.AlertsWork();
    HandsOver();
    Cycles();
    WrongRecipient();
  }

  lemma WrongRecipient()
    ensures SentToFormerOwner(Delivered)
  {
    assert Delivered.alerts[1] == SENT_ALERT;
    assert AcknowledgeAlert(Delivered, 1, 2, 5, "ann", {}, false, 0).Success?;
  }
}
