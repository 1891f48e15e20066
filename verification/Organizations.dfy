/** One automation pass over every organization: globally locked, each tenant its own transaction. */
module Organizations {
  import opened Common
  import opened Tables
  import opened Alerts
  import opened Invariants
  import opened CyclePhases
  import opened DatabaseSession
  import opened AutomationServices

  datatype RunResult = RunResult(processed: nat, failed: nat, skippedDueToLock: bool, totals: AutomationResult)

  const NO_WORK := AutomationResult(0, 0, 0, 0)

  function Plus(a: AutomationResult, b: AutomationResult): AutomationResult {
    AutomationResult(a.materialized + b.materialized, a.scheduled + b.scheduled, a.ready + b.ready, a.cancelled + b.cancelled)
  }

  /** What became of one tenant's transaction. */
  datatype Outcome = RolledBack | Committed(rows: CycleRows, trace: CycleTrace, result: AutomationResult)

  /** A tenant's tables are what its outcome says: untouched, or exactly one complete cycle on. */
  ghost predicate Explains(outcome: Outcome, before: Database, after: Database, call: CycleCall, locks: Locks) {
    match outcome
    case RolledBack => after == before
    case Committed(rows, trace, result) =>
      && CycleRuns(before, call, locks, rows, trace)
      && after == trace.activated
      && |trace.cancelled.alerts| <= |trace.scheduled.alerts|
      && result == trace.Totals(rows)
  }

  function CommittedCount(outcomes: seq<Outcome>): (n: nat)
    ensures n <= |outcomes|
  {
    if outcomes == [] then 0
    else CommittedCount(outcomes[..|outcomes| - 1]) + if outcomes[|outcomes| - 1].Committed? then 1 else 0
  }

  function TotalsOf(outcomes: seq<Outcome>): AutomationResult {
    if outcomes == [] then NO_WORK
    else
      var last := outcomes[|outcomes| - 1];
      if last.Committed? then Plus(TotalsOf(outcomes[..|outcomes| - 1]), last.result)
      else TotalsOf(outcomes[..|outcomes| - 1])
  }

  /** The four numbers of one committed cycle, or zeros, in the order they are reported. */
  function Numbers(outcome: Outcome): (nat, nat, nat, nat) {
    match outcome
    case RolledBack => (0, 0, 0, 0)
    case Committed(_, _, r) => (r.materialized, r.scheduled, r.ready, r.cancelled)
  }

  /** Each total is the sum of that number over the committed cycles. */
  lemma {:induction false} TotalsAdd(outcomes: seq<Outcome>, outcome: Outcome)
    ensures var before, after := TotalsOf(outcomes), TotalsOf(outcomes + [outcome]);
            && after.materialized == before.materialized + Numbers(outcome).0
            && after.scheduled == before.scheduled + Numbers(outcome).1
            && after.ready == before.ready + Numbers(outcome).2
            && after.cancelled == before.cancelled + Numbers(outcome).3
    ensures TotalsOf([]) == AutomationResult(0, 0, 0, 0)
  {
    assert (outcomes + [outcome])[..|outcomes|] == outcomes;
  }

  /** What goes wrong for one tenant besides the cycle's own refusals. An exception anywhere up to and
      including the commit leaves the transaction with some tables of its own, which the rollback
      discards. */
  datatype Fault = NoFault | Raised(left: Database)

  /** The cycle's own reasons to fail. */
  ghost predicate CycleRefuses(db: Database, call: CycleCall) {
    || !call.HorizonValid()
    || exists error :: SomeExpansionFails(db, call.WindowStart(), call.HorizonEnd(), error)
  }

  /** A tenant commits only without a fault, and without one fails only if its cycle refuses. */
  ghost predicate Settles(outcome: Outcome, before: Database, after: Database, call: CycleCall,
                          locks: Locks, fault: Fault) {
    && Explains(outcome, before, after, call, locks)
    && if outcome.Committed? then fault.NoFault? else fault.Raised? || CycleRefuses(before, call)
  }

  /** One tenant: its cycle commits whole or, whatever failed and wherever, leaves no trace. */
  method RunTenant(service: ObligationAutomationService, call: CycleCall, locks: Locks, fault: Fault)
    returns (committed: bool, result: AutomationResult, ghost outcome: Outcome)
    requires service.Valid() && Inv(service.session.Tables())
    modifies service.session
    ensures Settles(outcome, old(service.session.Tables()), service.session.Tables(), call, locks, fault)
    ensures Inv(service.session.Tables())
    ensures committed <==> outcome.Committed?
    ensures committed ==> result == outcome.result
  {
    hide Inv, CycleRuns, SomeExpansionFails;
    var snapshot := service.session.Tables();
    if fault.Raised? {
      service.session.Restore(fault.left);
    } else {
      var r;
      ghost var rows, trace;
      r, rows, trace := service.RunCycle(call, locks);
      if r.Success? {
        CycleKeeps(snapshot, call, locks, rows, trace);
        return true, r.value, Committed(rows, trace, r.value);
      }
    }
    service.session.Restore(snapshot);
    return false, NO_WORK, RolledBack;
  }

  /** `run_all_organizations`: without the lock nothing happens; with it every tenant is attempted
      once, a failed tenant keeps its tables and does not disturb the others, and the totals count
      exactly the committed cycles. Each tenant has its own faults and its own locked rows. */
  method RunAllOrganizations(acquired: bool, tenants: seq<ObligationAutomationService>, call: CycleCall,
                             locks: seq<Locks>, faults: seq<Fault>)
    returns (r: RunResult, ghost outcomes: seq<Outcome>)
    requires |locks| == |faults| == |tenants|
    requires forall i :: 0 <= i < |tenants| ==> tenants[i].Valid() && Inv(tenants[i].session.Tables())
    requires forall i, j :: 0 <= i < j < |tenants| ==> tenants[i].session != tenants[j].session
    modifies set i | 0 <= i < |tenants| :: tenants[i].session
    ensures !acquired ==>
              r == RunResult(0, 0, true, NO_WORK)
              && forall i :: 0 <= i < |tenants| ==> tenants[i].session.Tables() == old(tenants[i].session.Tables())
    ensures acquired ==>
              && |outcomes| == |tenants|
              && (forall i :: 0 <= i < |tenants| ==>
                    Settles(outcomes[i], old(tenants[i].session.Tables()), tenants[i].session.Tables(), call,
                            locks[i], faults[i]))
              && r == RunResult(CommittedCount(outcomes), |tenants| - CommittedCount(outcomes), false, TotalsOf(outcomes))
    ensures forall i :: 0 <= i < |tenants| ==> Inv(tenants[i].session.Tables())
  {
    hide Inv, Settles, CommittedCount, TotalsOf, Plus;
    NoOutcomes();
    outcomes := [];
    if !acquired {
      return RunResult(0, 0, true, NO_WORK), outcomes;
    }
    var processed: nat, failed: nat, totals := 0, 0, NO_WORK;
    for k := 0 to |tenants|
      invariant |outcomes| == k
      invariant forall i :: 0 <= i < k ==>
                  Settles(outcomes[i], old(tenants[i].session.Tables()), tenants[i].session.Tables(), call,
                          locks[i], faults[i])
      invariant forall i :: k <= i < |tenants| ==> tenants[i].session.Tables() == old(tenants[i].session.Tables())
      invariant forall i :: 0 <= i < |tenants| ==> Inv(tenants[i].session.Tables())
      invariant processed == CommittedCount(outcomes) && processed + failed == k
      invariant totals == TotalsOf(outcomes)
    {
      var committed, result;
      ghost var outcome;
      committed, result, outcome := RunTenant(tenants[k], call, locks[k], faults[k]);
      OneMoreOutcome(outcomes, outcome);
      outcomes := outcomes + [outcome];
      if committed {
        totals := Plus(totals, result);
        processed := processed + 1;
      } else {
        failed := failed + 1;
      }
    }
    r := RunResult(processed, failed, false, totals);
  }

  lemma NoOutcomes()
    ensures CommittedCount([]) == 0 && TotalsOf([]) == NO_WORK
  {
  }

  lemma OneMoreOutcome(outcomes: seq<Outcome>, outcome: Outcome)
    ensures CommittedCount(outcomes + [outcome]) == CommittedCount(outcomes) + if outcome.Committed? then 1 else 0
    ensures TotalsOf(outcomes + [outcome]) == if outcome.Committed? then Plus(TotalsOf(outcomes), outcome.result) else TotalsOf(outcomes)
  {
  }
}
