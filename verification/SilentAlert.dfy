/** One short run after which open work within the horizon has a cancelled alert and no other. */
module SilentAlert {
  import opened Common
  import opened EscalationPolicy
  import opened Tables
  import opened Workflow
  import opened Occurrences
  import opened Alerts
  import opened Runs
  import opened Convergence

  const FACTS: map<Id, Fact> := map[7 := Fact(true, None)]
  const MEMBERS: map<Id, Member> := map[5 := Member(true, "ann")]
  const NO_DEMANDS := Requirements(None, None, None, None, false, false, None)
  const REQUEST := CreateRequest(Some(5), Some(0), None, 0, NoPolicy, NO_DEMANDS)
  const ANN := Actor(5, "ann", false)
  const CALL := CycleCall(-10, 1, 0, "clock")

  function Work(status: Status, revision: nat): Obligation {
    Obligation(7, status, Some(5), Some("ann"), Some(0), None, 0, [], NO_DEMANDS, None, None, None, revision)
  }

  function DueSpec(revision: nat): AlertSpec {
    AlertSpec(0, None, Due, 0, 0, 0, Some(5), Some("ann"), None, AlertKey(0, 0, Due, 0), revision, 0, None)
  }

  function TablesWith(work: Obligation, alerts: map<Id, Alert>, events: seq<ObligationEvent>, nextId: Id): Database {
    Database(FACTS, MEMBERS, map[0 := work], map[], map[], alerts, events, [], [], nextId)
  }

  const CREATED := ObligationEvent(0, "ann", None, Some(Active), Created(Some(5)))
  const WAIVED := ObligationEvent(0, "ann", Some(Active), Some(Waived), StatusChanged(2))
  const CANCELLED := ObligationEvent(0, "clock", None, None, AlertChanged(1, CancelRecorded))
  const REOPENED := ObligationEvent(0, "ann", Some(Waived), Some(Active), Reopened(3))

  const SCHEDULED_ALERT := Alert(DueSpec(1), AlertScheduled, 1, None, None, None)
  const CANCELLED_ALERT := Alert(DueSpec(1), AlertStatus.AlertCancelled, 2, None, None, None)

  const Known := EmptyDatabase.(facts := FACTS, members := MEMBERS)
  const Opened := TablesWith(Work(Active, 1), map[], [CREATED], 1)
  const Alerted := TablesWith(Work(Active, 1), map[1 := SCHEDULED_ALERT], [CREATED], 2)
  const Ended := TablesWith(Work(Waived, 2), map[1 := SCHEDULED_ALERT], [CREATED, WAIVED], 2)
  const Silenced := TablesWith(Work(Waived, 2), map[1 := CANCELLED_ALERT], [CREATED, WAIVED, CANCELLED], 2)
  const Resumed := TablesWith(Work(Active, 3), map[1 := CANCELLED_ALERT], [CREATED, WAIVED, CANCELLED, REOPENED], 2)

  lemma Creates()
    ensures Next(Known, Create(7, REQUEST, "ann"), Opened)
  {
    assert SortByDelay([]) == [];
    assert NormalSteps([]) == [];
    var r := CreateFromFact(Known, 7, REQUEST, "ann");
    assert Acceptable(NoPolicy) && ActiveMember(Known, Some(5)) == Success(Some("ann"));
    assert NewObligation(Known, 7, REQUEST, Some("ann")) == Work(Active, 1);
    assert Record(Known, 0, Work(Active, 1), None, "ann", Created(Some(5))).(nextId := 1) == Opened;
    assert r == Success((Opened, 0, true));
  }

  /** What the queries of a cycle find when the only work is one obligation without a recurrence. */
  lemma Queries(work: Obligation, alerts: map<Id, Alert>, events: seq<ObligationEvent>, nextId: Id)
    requires work.recurrence.None?
    ensures var db := TablesWith(work, alerts, events, nextId);
            && RecurringObligations(db) == {} && ScheduledInstances(db, CALL.HorizonEnd()) == {}
            && ScheduledObligations(db, CALL.HorizonEnd()) == (if IsDueByObligation(work, CALL.HorizonEnd()) then {0} else {})
            && Lists<Id>([], {}) && Lists([0 as Id], {0}) && Lists([1 as Id], {1})
  {
  }

  lemma SpecsOfWork(revision: nat)
    ensures SpecsFor(ObligationTarget(0, Work(Active, revision))) == [DueSpec(revision)]
  {
  }

  lemma SpecsOfTables(revision: nat, alerts: map<Id, Alert>, events: seq<ObligationEvent>, nextId: Id)
    ensures var db := TablesWith(Work(Active, revision), alerts, events, nextId);
            ObligationSpecs(db, [0]) + InstanceSpecs(db, []) == [DueSpec(revision)]
  {
  }

  const NOTHING := CycleRows([], [], [], [], [])

  lemma AlertsWork()
    ensures Next(Opened, RunCycle(CALL, UNLOCKED, NOTHING.(obligations := [0]), CycleTrace(Opened, Opened, Alerted, Alerted, 0)), Alerted)
  {
    hide SpecsFor, ObligationSpecs, InstanceSpecs;
    Queries(Work(Active, 1), map[], [CREATED], 1);
    Queries(Work(Active, 1), map[1 := SCHEDULED_ALERT], [CREATED], 2);
    SpecsOfTables(1, map[], [CREATED], 1);
    assert CancellableAlerts(Opened) == {} && DueAlerts(Alerted, -10) == {};
    assert [DueSpec(1)][..0] == [];
    assert AddAlerts(Opened, []) == Opened;
    assert AddAlerts(Opened, [DueSpec(1)]) == Alerted;
  }

  lemma EndsWork()
    ensures Next(Alerted, Move(0, Waived, 1, ANN, 0), Ended)
    ensures Next(Silenced, Move(0, Active, 2, ANN, 0), Resumed)
  {
    assert [CREATED] + [WAIVED] == [CREATED, WAIVED];
    assert [CREATED, WAIVED, CANCELLED] + [REOPENED] == [CREATED, WAIVED, CANCELLED, REOPENED];
    assert Record(Alerted, 0, Work(Waived, 2), Some(Active), "ann", StatusChanged(2)) == Ended;
    assert Record(Silenced, 0, Work(Active, 3), Some(Waived), "ann", Reopened(3)) == Resumed;
  }

  lemma SilencesAlert()
    ensures Next(Ended, RunCycle(CALL, UNLOCKED, NOTHING.(cancellable := [1]), CycleTrace(Ended, Silenced, Silenced, Silenced, 0)), Silenced)
  {
    hide SpecsFor, ObligationSpecs, InstanceSpecs, CancelAll, AddAlerts;
    Queries(Work(Waived, 2), map[1 := SCHEDULED_ALERT], [CREATED, WAIVED], 2);
    Queries(Work(Waived, 2), map[1 := CANCELLED_ALERT], [CREATED, WAIVED, CANCELLED], 2);
    assert CancellableAlerts(Ended) == {1} && DueAlerts(Silenced, -10) == {};
    CancelsAlert();
    SchedulesNothing();
  }

  lemma CancelsAlert()
    ensures CancelAll(Ended, [1], "clock") == Silenced
  {
  }

  lemma SchedulesNothing()
    ensures AddAlerts(Silenced, ObligationSpecs(Silenced, []) + InstanceSpecs(Silenced, [])) == Silenced
  {
  }

  lemma ReplacesNothing()
    ensures Next(Resumed, RunCycle(CALL, UNLOCKED, NOTHING.(obligations := [0]), CycleTrace(Resumed, Resumed, Resumed, Resumed, 0)), Resumed)
    ensures Wanted(Resumed, CALL.HorizonEnd(), DueSpec(3))
  {
    hide SpecsFor, ObligationSpecs, InstanceSpecs;
    Queries(Work(Active, 3), map[1 := CANCELLED_ALERT], [CREATED, WAIVED, CANCELLED, REOPENED], 2);
    SpecsOfTables(3, map[1 := CANCELLED_ALERT], [CREATED, WAIVED, CANCELLED, REOPENED], 2);
    SpecsOfWork(3);
    assert CancellableAlerts(Resumed) == {} && DueAlerts(Resumed, -10) == {};
    assert [DueSpec(3)][..0] == [];
    assert AddAlerts(Resumed, []) == Resumed;
    assert Resumed.alerts[1].spec.key == DueSpec(3).key;
    assert DueSpec(3).key in KeysOf(Resumed.alerts);
    assert AddAlerts(Resumed, [DueSpec(3)]) == Resumed;
  }

  /** Work due within the horizon is waived and reopened with a cycle in between: the next cycle wants
      its alert, but the only one stored under that key is cancelled. */
  lemma SilentRun() returns (states: seq<Database>, commands: seq<Command>)
    ensures IsRun(states, commands)
    ensures var last := states[|states| - 1];
            && Wanted(last, CALL.HorizonEnd(), DueSpec(3))
            && forall a :: a in last.alerts && last.alerts[a].spec.key == DueSpec(3).key ==> last.alerts[a].status.AlertCancelled?
  {
    hide Next, Wanted;
    states := [EmptyDatabase, Known, Opened, Alerted, Ended, Silenced, Resumed, Resumed];
    commands := [
      Environment(FACTS, MEMBERS),
      Create(7, REQUEST, "ann"),
      RunCycle(CALL, UNLOCKED, NOTHING.(obligations := [0]), CycleTrace(Opened, Opened, Alerted, Alerted, 0)),
      Move(0, Waived, 1, ANN, 0),
      RunCycle(CALL, UNLOCKED, NOTHING.(cancellable := [1]), CycleTrace(Ended, Silenced, Silenced, Silenced, 0)),
      Move(0, Active, 2, ANN, 0),
      RunCycle(CALL, UNLOCKED, NOTHING.(obligations := [0]), CycleTrace(Resumed, Resumed, Resumed, Resumed, 0))];
    Knows();
    Creates();
    AlertsWork();
    EndsWork();
    SilencesAlert();
    ReplacesNothing();
  }

  lemma Knows()
    ensures Next(EmptyDatabase, Environment(FACTS, MEMBERS), Known)
  {
  }
}
