/** One short run in which an alert is delivered for work whose obligation has already been waived. */
module OrphanAlert {
  import opened Common
  import opened EscalationPolicy
  import opened Tables
  import opened Workflow
  import opened Occurrences
  import opened Alerts
  import opened Runs
  import SilentAlert

  function OnlyAtZero(t: Time): bool {
    t == 0
  }

  const RULE := Recurrence(true, OnlyAtZero)
  const REQUEST := CreateRequest(Some(5), Some(0), Some(RULE), 0, NoPolicy, SilentAlert.NO_DEMANDS)
  const CALL := CycleCall(10, 1, 0, "clock")

  function Work(status: Status, revision: nat): Obligation {
    Obligation(7, status, Some(5), Some("ann"), Some(0), Some(RULE), 0, [], SilentAlert.NO_DEMANDS,
               None, None, None, revision)
  }

  const OCCURRENCE :=
    Instance(0, 0, 0, Scheduled, Some(5), Some("ann"), 1, RULE, 0, [], SilentAlert.NO_DEMANDS, None, None, 1)
  const SPEC := AlertSpec(0, Some(1), Due, 0, 0, 0, Some(5), Some("ann"), None, AlertKey(1, 0, Due, 0), 1, 0, None)
  const NEW_ALERT := Alert(SPEC, AlertScheduled, 1, None, None, None)
  const SENT_ALERT := Alert(SPEC, AlertReady, 2, Some(10), None, None)

  const CREATED := ObligationEvent(0, "ann", None, Some(Active), Created(Some(5)))
  const MATERIALIZED := ObligationEvent(0, "ann", Some(Active), Some(Active), InstancesMaterialized([1]))
  const WAIVED := ObligationEvent(0, "ann", Some(Active), Some(Waived), StatusChanged(2))
  const SENT := ObligationEvent(0, "clock", None, None, AlertChanged(2, DueSent))
  const GENERATED := InstanceEvent(1, "ann", None, Some(Scheduled), Generated(1, 0))
  const SENT_THERE := InstanceEvent(1, "clock", None, None, InstanceAlertChanged(2, DueSent))

  const Opened := SilentAlert.Known.(obligations := map[0 := Work(Active, 1)], events := [CREATED], nextId := 1)
  const Planned := Opened.(instances := map[1 := OCCURRENCE], events := [CREATED, MATERIALIZED],
                           instanceEvents := [GENERATED], nextId := 2)
  const Ended := Planned.(obligations := map[0 := Work(Waived, 2)], events := [CREATED, MATERIALIZED, WAIVED])
  const Alerted := Ended.(alerts := map[2 := NEW_ALERT], nextId := 3)
  const Delivered := Alerted.(alerts := map[2 := SENT_ALERT], events := [CREATED, MATERIALIZED, WAIVED, SENT],
                              instanceEvents := [GENERATED, SENT_THERE], outbox := [AlertReadyEvent(2, SPEC)])

  const ROWS := CycleRows([], [], [], [1], [2])
  const TRACE := CycleTrace(Ended, Ended, Alerted, Delivered, 0)

  lemma Creates()
    ensures Next(SilentAlert.Known, Create(7, REQUEST, "ann"), Opened)
  {
    assert SortByDelay([]) == [];
    assert NormalSteps([]) == [];
    assert Acceptable(NoPolicy) && ActiveMember(SilentAlert.Known, Some(5)) == Success(Some("ann"));
    assert NewObligation(SilentAlert.Known, 7, REQUEST, Some("ann")) == Work(Active, 1);
    assert Record(SilentAlert.Known, 0, Work(Active, 1), None, "ann", Created(Some(5))).(nextId := 1) == Opened;
    assert CreateFromFact(SilentAlert.Known, 7, REQUEST, "ann") == Success((Opened, 0, true));
  }

  lemma ExpandsToZero()
    ensures Expand(RULE, 0, 0) == Success([0])
  {
    assert Between(OnlyAtZero, 1, 0) == [];
    assert Between(OnlyAtZero, 0, 0) == [0];
  }

  lemma AddMissingOne(db: Database, id: Id, t: Time, actor: string)
    requires id in db.obligations && db.obligations[id].recurrence.Some? && !IsScheduledAt(db, id, t)
    ensures AddMissing(db, id, [t], actor) == (AddOccurrence(db, id, t, actor), [db.nextId])
  {
    var times := [t];
    assert times[..|times| - 1] == [];
    assert AddMissing(db, id, [], actor) == (db, []);
    var added: seq<Id> := [];
    assert added + [db.nextId] == [db.nextId];
  }

  lemma Plans()
    ensures Next(Opened, Generate(0, 0, 0, "ann"), Planned)
  {
    hide Expand, Between;
    ExpandsToZero();
    AddMissingOne(Opened, 0, 0, "ann");
    assert Snapshot(0, Work(Active, 1), 0) == OCCURRENCE;
    var added := AddOccurrence(Opened, 0, 0, "ann");
    assert added.instances == map[1 := OCCURRENCE] && added.instanceEvents == [GENERATED];
    assert [CREATED] + [MATERIALIZED] == [CREATED, MATERIALIZED];
  }

  lemma Ends()
    ensures Next(Planned, Move(0, Waived, 1, SilentAlert.ANN, 0), Ended)
  {
    assert [CREATED, MATERIALIZED] + [WAIVED] == [CREATED, MATERIALIZED, WAIVED];
    assert Record(Planned, 0, Work(Waived, 2), Some(Active), "ann", StatusChanged(2)) == Ended;
  }

  lemma Queries()
    ensures RecurringObligations(Ended) == {} && CancellableAlerts(Ended) == {}
    ensures ScheduledObligations(Ended, CALL.HorizonEnd()) == {} && ScheduledInstances(Ended, CALL.HorizonEnd()) == {1}
    ensures DueAlerts(Alerted, 10) == {2}
    ensures Lists<Id>([], {}) && Lists([1 as Id], {1}) && Lists([2 as Id], {2})
  {
  }

  lemma OneOccurrenceSpecs(db: Database, i: Id)
    requires i in db.instances
    ensures ObligationSpecs(db, []) + InstanceSpecs(db, [i]) == SpecsFor(InstanceTarget(i, db.instances[i]))
  {
    hide SpecsFor;
    assert [i][..0] == [];
    assert InstanceSpecs(db, []) == [] && ObligationSpecs(db, []) == [];
  }

  lemma OneSpec(db: Database, spec: AlertSpec)
    requires spec.key !in KeysOf(db.alerts)
    ensures AddAlerts(db, [spec]) == AddAlert(db, spec)
  {
    assert [spec][..0] == [];
    assert AddAlerts(db, []) == db;
  }

  lemma SpecsOfOccurrence()
    ensures SpecsFor(InstanceTarget(1, OCCURRENCE)) == [SPEC]
  {
    var t := InstanceTarget(1, OCCURRENCE);
    assert EscalationSpecs(t, []) == [];
    assert OwnSpecs(t) == [SPEC];
  }

  lemma SchedulesAlert()
    ensures AddAlerts(Ended, ObligationSpecs(Ended, []) + InstanceSpecs(Ended, [1])) == Alerted
  {
    hide SpecsFor, InstanceSpecs, ObligationSpecs, AddAlerts;
    SpecsOfOccurrence();
    OneOccurrenceSpecs(Ended, 1);
    OneSpec(Ended, SPEC);
    assert AddAlert(Ended, SPEC) == Alerted;
  }

  lemma Delivers()
    ensures ReadyAll(Alerted, [2], 10, "clock") == Delivered
  {
    assert [2 as Id][..0] == [];
    assert ReadyAll(Alerted, [], 10, "clock") == Alerted;
    assert [CREATED, MATERIALIZED, WAIVED] + [SENT] == [CREATED, MATERIALIZED, WAIVED, SENT];
    assert [GENERATED] + [SENT_THERE] == [GENERATED, SENT_THERE];
    assert ReadyOne(Alerted, 2, 10, "clock") == Delivered;
  }

  lemma Cycles()
    ensures Next(Ended, RunCycle(CALL, UNLOCKED, ROWS, TRACE), Delivered)
  {
    hide AddAlerts, ReadyAll, ObligationSpecs, InstanceSpecs;
    hide RecurringObligations, CancellableAlerts, ScheduledObligations, ScheduledInstances, DueAlerts;
    Queries();
    SchedulesAlert();
    Delivers();
  }

  /** An alert sent for waived work, still to be cancelled. */
  ghost predicate SentForWaived(db: Database) {
    exists a ::
      && a in CancellableAlerts(db) && db.alerts[a].status.AlertReady?
      && db.alerts[a].spec.obligation in db.obligations
      && db.obligations[db.alerts[a].spec.obligation].status.Waived?
  }

  /** Recurring work gets an occurrence and is waived; the next cycle delivers the occurrence's alert,
      and leaves it to be cancelled. */
  lemma OrphanRun() returns (states: seq<Database>, commands: seq<Command>)
    ensures IsRun(states, commands)
    ensures SentForWaived(states[|states| - 1])
  {
    hide Next, SentForWaived;
    states := [EmptyDatabase, SilentAlert.Known, Opened, Planned, Ended, Delivered];
    commands := [
      Environment(SilentAlert.FACTS, SilentAlert.MEMBERS), Create(7, REQUEST, "ann"), Generate(0, 0, 0, "ann"),
      Move(0, Waived, 1, SilentAlert.ANN, 0), RunCycle(CALL, UNLOCKED, ROWS, TRACE)];
    SilentAlert.Knows();
    Creates();
    Plans();
    Ends();
    Cycles();
    OrphanLeft();
  }

  lemma OrphanLeft()
    ensures SentForWaived(Delivered)
  {
    assert 2 in CancellableAlerts(Delivered);
  }
}
