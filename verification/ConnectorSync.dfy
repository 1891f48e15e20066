/** The connector synchronization service: one reconciliation pass over a connection's inventory. */
module ConnectorSync {
  import opened Common
  import opened Connector

  datatype SyncPlan = SyncPlan(cursor: Option<string>, counts: map<ItemStatus, nat>, duplicates: nat, actions: seq<Action>)

  datatype SyncError = ConnectionNotFound

  /** The cursors of a connection's runs follow one another up to its current cursor. */
  ghost predicate Chained(runs: seq<Run>, cursor: Option<string>) {
    && (forall i, j :: 0 <= i < j < |runs| && j == i + 1 ==> runs[j].before == runs[i].after)
    && (runs != [] ==> runs[|runs| - 1].after == cursor)
  }

  /** A plan has one action per item the pass reports on, counts that tally the actions, and accounts
      for every snapshot: as an action or as a duplicate. */
  ghost predicate IsPlan(inventory: Inventory, snapshots: seq<Snapshot>, nextCursor: Option<string>, full: bool,
                         plan: SyncPlan) {
    && ActionsCover(inventory, snapshots, Touched(inventory, snapshots, full), plan.actions)
    && Counts(plan.counts, plan.actions)
    && plan.duplicates == |snapshots| - |Seen(snapshots)|
    && Total(plan.counts) + plan.duplicates == |snapshots| + (if full then |inventory.Keys - Seen(snapshots)| else 0)
    && plan.cursor == nextCursor
  }

  /** The documents of items the provider no longer lets us read. */
  function RevokedDocuments(inventory: Inventory, snapshots: seq<Snapshot>): set<Id> {
    set id | id in inventory && id in Seen(snapshots) && !FirstOf(snapshots, id).accessible && inventory[id].logical.Some?
      :: inventory[id].logical.value
  }

  function Revokes(inventory: Inventory, s: Snapshot): set<Id> {
    if s.externalId in inventory && !s.accessible && inventory[s.externalId].logical.Some? then {inventory[s.externalId].logical.value}
    else {}
  }

  function MarkRevoked(logicals: map<Id, string>, revoked: set<Id>): map<Id, string> {
    map l | l in logicals :: if l in revoked then "source_access_revoked" else logicals[l]
  }

  function Bump(counts: map<ItemStatus, nat>, status: ItemStatus): map<ItemStatus, nat> {
    counts[status := CountIn(counts, status) + 1]
  }

  lemma BumpCounts(counts: map<ItemStatus, nat>, actions: seq<Action>, a: Action)
    requires Counts(counts, actions)
    ensures Counts(Bump(counts, a.action), actions + [a])
  {
  }

  lemma CoverNext(inventory: Inventory, snapshots: seq<Snapshot>, more: seq<Snapshot>, ids: set<string>,
                  actions: seq<Action>, a: Action)
    requires ids <= inventory.Keys + Seen(snapshots) && ActionsCover(inventory, snapshots, ids, actions)
    requires a.externalId !in ids && ids + {a.externalId} <= inventory.Keys + Seen(more)
    requires a == ActionFor(inventory, more, a.externalId)
    requires forall id :: id in ids ==> ActionFor(inventory, more, id) == ActionFor(inventory, snapshots, id)
    ensures ActionsCover(inventory, more, ids + {a.externalId}, actions + [a])
  {
    hide ActionFor, Seen;
  }

  /** One more snapshot of a pass: the items it has not seen before are unaffected by the earlier ones. */
  lemma SnapshotNext(inventory: Inventory, snapshots: seq<Snapshot>, i: nat)
    requires i < |snapshots|
    ensures Seen(snapshots[..i + 1]) == Seen(snapshots[..i]) + {snapshots[i].externalId}
    ensures forall id :: id in Seen(snapshots[..i + 1]) ==>
              FirstOf(snapshots[..i + 1], id) == if id in Seen(snapshots[..i]) then FirstOf(snapshots[..i], id) else snapshots[i]
  {
    hide FirstOf;
    assert snapshots[..i + 1] == snapshots[..i] + [snapshots[i]];
    forall id | id in Seen(snapshots[..i + 1])
      ensures FirstOf(snapshots[..i + 1], id) == if id in Seen(snapshots[..i]) then FirstOf(snapshots[..i], id) else snapshots[i]
    {
      FirstOfAppend(snapshots[..i], snapshots[i], id);
    }
  }

  /** The state of a pass after the snapshots `snapshots`. */
  ghost predicate Reconciled(inventory: Inventory, snapshots: seq<Snapshot>, current: Inventory,
                             actions: seq<Action>, revoked: set<Id>) {
    && current == Pass(inventory, snapshots, false)
    && ActionsCover(inventory, snapshots, Seen(snapshots), actions)
    && revoked == RevokedDocuments(inventory, snapshots)
  }

  /** A snapshot of an item seen before in the pass changes nothing. */
  lemma DuplicateStep(inventory: Inventory, snapshots: seq<Snapshot>, i: nat, current: Inventory,
                      actions: seq<Action>, revoked: set<Id>)
    requires i < |snapshots| && snapshots[i].externalId in Seen(snapshots[..i])
    requires Reconciled(inventory, snapshots[..i], current, actions, revoked)
    ensures Seen(snapshots[..i + 1]) == Seen(snapshots[..i])
    ensures Reconciled(inventory, snapshots[..i + 1], current, actions, revoked)
  {
    hide FirstOf, Seen, EffectOn;
    SnapshotNext(inventory, snapshots, i);
    assert Seen(snapshots[..i + 1]) == Seen(snapshots[..i]);
    assert Pass(inventory, snapshots[..i + 1], false) == Pass(inventory, snapshots[..i], false);
    assert RevokedDocuments(inventory, snapshots[..i + 1]) == RevokedDocuments(inventory, snapshots[..i]);
  }

  /** The first snapshot of an item decides what the pass does to it. */
  lemma FirstStep(inventory: Inventory, snapshots: seq<Snapshot>, i: nat, current: Inventory, actions: seq<Action>,
                  revoked: set<Id>)
    requires i < |snapshots| && snapshots[i].externalId !in Seen(snapshots[..i])
    requires Reconciled(inventory, snapshots[..i], current, actions, revoked)
    ensures var s := snapshots[i];
            var effect := EffectOn(inventory, s);
            var id := s.externalId;
            Reconciled(inventory, snapshots[..i + 1], current[id := effect.item],
                       actions + [Action(id, effect.item.status, effect.requiresFetch)],
                       revoked + Revokes(inventory, s))
  {
    hide FirstOf, Seen, EffectOn;
    SnapshotNext(inventory, snapshots, i);
    var s := snapshots[i];
    var effect := EffectOn(inventory, s);
    var a := Action(s.externalId, effect.item.status, effect.requiresFetch);
    CoverNext(inventory, snapshots[..i], snapshots[..i + 1], Seen(snapshots[..i]), actions, a);
    hide ActionsCover, RevokedDocuments, Pass;
    RevokedNext(inventory, snapshots, i);
    PassNext(inventory, snapshots, i);
  }

  lemma PassNext(inventory: Inventory, snapshots: seq<Snapshot>, i: nat)
    requires i < |snapshots| && snapshots[i].externalId !in Seen(snapshots[..i])
    ensures Pass(inventory, snapshots[..i + 1], false)
              == Pass(inventory, snapshots[..i], false)[snapshots[i].externalId := EffectOn(inventory, snapshots[i]).item]
  {
    hide FirstOf, Seen, EffectOn;
    SnapshotNext(inventory, snapshots, i);
  }

  lemma RevokedNext(inventory: Inventory, snapshots: seq<Snapshot>, i: nat)
    requires i < |snapshots| && snapshots[i].externalId !in Seen(snapshots[..i])
    ensures var s := snapshots[i];
            var id := s.externalId;
            RevokedDocuments(inventory, snapshots[..i + 1])
              == RevokedDocuments(inventory, snapshots[..i])
                 + Revokes(inventory, s)
  {
    hide FirstOf, Seen;
    SnapshotNext(inventory, snapshots, i);
  }

  /** Marking `done` of the items a full pass did not see. */
  function MissingMarked(current: Inventory, done: set<string>): Inventory {
    map id | id in current :: if id in done then current[id].(status := Missing) else current[id]
  }

  lemma FullPass(inventory: Inventory, snapshots: seq<Snapshot>)
    ensures MissingMarked(Pass(inventory, snapshots, false), inventory.Keys - Seen(snapshots)) == Pass(inventory, snapshots, true)
  {
  }

  /** What a pass concludes about an item it knows. */
  method Compare(s: Snapshot, item: Item) returns (action: ItemStatus, fetch: bool)
    ensures (action, fetch) == Decide(s, item)
    ensures fetch <==> s.accessible && (action.ContentChanged? || action.Restored? || action.RetryFetch?)
  {
    var contentChanged := IsContentChanged(s, item);
    var pendingFetch := IsPending(item.status);
    var moved := s.name != item.name || s.path != item.path;
    var permissionsChanged := s.permissions != item.permissions;
    var restored := (item.status.AccessRevoked? || item.status.Missing?) && s.accessible;
    if !s.accessible {
      action, fetch := AccessRevoked, false;
    } else if contentChanged || restored {
      action, fetch := if contentChanged then ContentChanged else Restored, true;
    } else if pendingFetch {
      action, fetch := RetryFetch, true;
    } else if moved {
      action, fetch := MovedOrRenamed, false;
    } else if permissionsChanged {
      action, fetch := PermissionsChanged, false;
    } else {
      action, fetch := Unchanged, false;
    }
  }

  class ConnectorSyncService {
    var connections: map<Id, Connection>
    var inventories: map<Id, Inventory>
    var logicals: map<Id, string>
    var runs: map<Id, seq<Run>>

    ghost predicate Valid()
      reads this
    {
      forall c :: c in connections ==> c in inventories && c in runs && Chained(runs[c], connections[c].cursor)
    }

    /** Reconcile a connection with the snapshots of one page or of a complete listing. */
    method Reconcile(c: Id, snapshots: seq<Snapshot>, nextCursor: Option<string>,
                     full: bool) returns (r: Result<SyncPlan, SyncError>)
      requires Valid()
      modifies this
      ensures Valid()
      ensures r.Success? <==> c in old(connections) && !old(connections)[c].revoked
      ensures r.Failure? ==> connections == old(connections) && inventories == old(inventories) && logicals == old(logicals) && runs == old(runs)
      ensures r.Success? ==>
        var inventory, plan := old(inventories)[c], r.value;
        && IsPlan(inventory, snapshots, nextCursor, full, plan)
        && inventories == old(inventories)[c := Pass(inventory, snapshots, full)]
        && connections == old(connections)[c := Connection(false, nextCursor)]
        && runs == old(runs)[c := old(runs)[c] + [Run(full, old(connections)[c].cursor, nextCursor, plan.counts, plan.duplicates)]]
        && logicals == MarkRevoked(old(logicals), RevokedDocuments(inventory, snapshots))
    {
      hide *;
      if c !in connections || connections[c].revoked {
        return Failure(ConnectionNotFound);
      }
      KnownConnection(c);
      var existing := inventories[c];
      var before := connections[c].cursor;
      var actions, counts, duplicates, seen := ReconcileSnapshots(c, existing, snapshots);
      if full {
        actions, counts := MarkMissing(c, existing, snapshots, seen, actions, counts);
      }
      TouchedPartial(existing, snapshots);
      r := Success(SyncPlan(nextCursor, counts, duplicates, actions));
      PlanMade(existing, snapshots, nextCursor, full, r.value);
      CompleteRun(c, Run(full, before, nextCursor, counts, duplicates));
    }

    lemma KnownConnection(c: Id)
      requires Valid() && c in connections
      ensures c in inventories && c in runs
    {
    }

    /** The connection is healthy, its cursor moves on and the run is closed. */
    method CompleteRun(c: Id, run: Run)
      requires Valid() && c in connections && run.before == connections[c].cursor
      modifies this`connections, this`runs
      ensures Valid()
      ensures c in old(connections) && c in old(runs)
      ensures connections == old(connections)[c := Connection(false, run.after)]
      ensures runs == old(runs)[c := old(runs)[c] + [run]]
    {
      hide Chained;
      ChainedNext(runs[c], connections[c].cursor, run);
      connections := connections[c := Connection(false, run.after)];
      runs := runs[c := runs[c] + [run]];
    }

    /** The loop over the snapshots. */
    method ReconcileSnapshots(c: Id, existing: Inventory, snapshots: seq<Snapshot>)
      returns (actions: seq<Action>, counts: map<ItemStatus, nat>, duplicates: nat, seen: set<string>)
      requires Valid() && c in inventories && inventories[c] == existing
      modifies this`inventories, this`logicals
      ensures Valid()
      ensures inventories == old(inventories)[c := Pass(existing, snapshots, false)]
      ensures ActionsCover(existing, snapshots, Seen(snapshots), actions)
      ensures Counts(counts, actions) && duplicates + |Seen(snapshots)| == |snapshots| && seen == Seen(snapshots)
      ensures logicals == MarkRevoked(old(logicals), RevokedDocuments(existing, snapshots))
    {
      hide Pass, ActionsCover, Chained, Counts, RevokedDocuments, Seen, Reconciled, MarkRevoked, CountIn, FirstOf, ActionFor, EffectOn, Revokes;
      NothingReconciled(existing);
      NothingRevoked(logicals);
      actions, counts, duplicates, seen := [], map[], 0, {};
      ghost var revoked: set<Id> := {};
      assert snapshots[..0] == [];
      for i := 0 to |snapshots|
        invariant seen == Seen(snapshots[..i]) && duplicates + |seen| == i
        invariant c in inventories && inventories == old(inventories)[c := inventories[c]]
        invariant Reconciled(existing, snapshots[..i], inventories[c], actions, revoked)
        invariant Counts(counts, actions)
        invariant logicals == MarkRevoked(old(logicals), revoked)
      {
        var s := snapshots[i];
        SnapshotNext(existing, snapshots, i);
        if s.externalId in seen {
          DuplicateStep(existing, snapshots, i, inventories[c], actions, revoked);
          duplicates := duplicates + 1;
          continue;
        }
        FirstStep(existing, snapshots, i, inventories[c], actions, revoked);
        seen := seen + {s.externalId};
        MarkRevokedTwice(old(logicals), revoked, Revokes(existing, s));
        revoked := revoked + Revokes(existing, s);
        var action, fetch := ApplySnapshot(c, existing, s);
        BumpCounts(counts, actions, Action(s.externalId, action, fetch));
        actions, counts := actions + [Action(s.externalId, action, fetch)], Bump(counts, action);
      }
      assert snapshots[..|snapshots|] == snapshots;
      ReconciledAll(existing, snapshots, inventories[c], actions, revoked);
    }

    /** One snapshot of an item not seen before in the pass. */
    method ApplySnapshot(c: Id, existing: Inventory, s: Snapshot) returns (action: ItemStatus, fetch: bool)
      requires c in inventories
      modifies this`inventories, this`logicals
      ensures EffectOn(existing, s).item.status == action && EffectOn(existing, s).requiresFetch == fetch
      ensures inventories == old(inventories)[c := old(inventories)[c][s.externalId := EffectOn(existing, s).item]]
      ensures logicals == MarkRevoked(old(logicals), Revokes(existing, s))
    {
      hide Decide;
      var logical: Option<Id> := None;
      if s.externalId !in existing {
        action, fetch := if s.accessible then Discovered else AccessRevoked, s.accessible;
      } else {
        var item := existing[s.externalId];
        action, fetch := Compare(s, item);
        logical := item.logical;
        if !s.accessible && logical.Some? && logical.value in logicals {
          logicals := logicals[logical.value := "source_access_revoked"];
        }
      }
      inventories := inventories[c := inventories[c][s.externalId := Reported(s, logical, action)]];
    }

    /** A full pass marks the items it did not see. */
    method MarkMissing(c: Id, existing: Inventory, snapshots: seq<Snapshot>, seen: set<string>,
                       listed: seq<Action>, tallied: map<ItemStatus, nat>)
      returns (actions: seq<Action>, counts: map<ItemStatus, nat>)
      requires Valid() && c in inventories && inventories[c] == Pass(existing, snapshots, false) && seen == Seen(snapshots)
      requires ActionsCover(existing, snapshots, Seen(snapshots), listed) && Counts(tallied, listed)
      modifies this`inventories
      ensures Valid()
      ensures inventories == old(inventories)[c := Pass(existing, snapshots, true)]
      ensures ActionsCover(existing, snapshots, Touched(existing, snapshots, true), actions) && Counts(counts, actions)
    {
      hide Pass, ActionsCover, Chained, Counts, Seen, CountIn;
      actions, counts := listed, tallied;
      var left := existing.Keys;
      ghost var before := inventories[c];
      ghost var done: set<string> := {};
      assert before == MissingMarked(before, {}) && seen + done == seen;
      while left != {}
        invariant left <= existing.Keys && done == existing.Keys - seen - left && done !! seen
        invariant c in inventories && inventories == old(inventories)[c := inventories[c]]
        invariant inventories[c] == MissingMarked(before, done)
        invariant ActionsCover(existing, snapshots, seen + done, actions) && Counts(counts, actions)
      {
        var id :| id in left;
        left := left - {id};
        if id !in seen {
          PassKeeps(existing, snapshots, id);
          inventories := inventories[c := inventories[c][id := inventories[c][id].(status := Missing)]];
          MissingNext(existing, snapshots, before, done, actions, id);
          BumpCounts(counts, actions, Action(id, Missing, false));
          actions, counts := actions + [Action(id, Missing, false)], Bump(counts, Missing);
          assert seen + done + {id} == seen + (done + {id});
          done := done + {id};
        }
      }
      assert done == existing.Keys - seen;
      assert seen + done == Touched(existing, snapshots, true);
      FullPass(existing, snapshots);
    }
  }

  lemma NothingReconciled(inventory: Inventory)
    ensures Seen([]) == {}
    ensures Reconciled(inventory, [], inventory, [], {}) && Counts(map[], [])
  {
  }

  lemma NothingRevoked(logicals: map<Id, string>)
    ensures MarkRevoked(logicals, {}) == logicals
  {
  }

  lemma MarkRevokedTwice(logicals: map<Id, string>, a: set<Id>, b: set<Id>)
    ensures MarkRevoked(MarkRevoked(logicals, a), b) == MarkRevoked(logicals, a + b)
  {
  }

  lemma ReconciledAll(inventory: Inventory, snapshots: seq<Snapshot>, current: Inventory, actions: seq<Action>,
                      revoked: set<Id>)
    requires Reconciled(inventory, snapshots, current, actions, revoked)
    ensures current == Pass(inventory, snapshots, false)
    ensures ActionsCover(inventory, snapshots, Seen(snapshots), actions) && revoked == RevokedDocuments(inventory, snapshots)
  {
  }

  lemma PassKeeps(inventory: Inventory, snapshots: seq<Snapshot>, id: string)
    requires id in inventory && id !in Seen(snapshots)
    ensures id in Pass(inventory, snapshots, false)
  {
  }

  lemma MissingNext(inventory: Inventory, snapshots: seq<Snapshot>, before: Inventory, done: set<string>,
                    actions: seq<Action>, id: string)
    requires id in inventory && id in before && id !in Seen(snapshots) && id !in done && done <= inventory.Keys
    requires ActionsCover(inventory, snapshots, Seen(snapshots) + done, actions)
    ensures MissingMarked(before, done)[id := MissingMarked(before, done)[id].(status := Missing)] == MissingMarked(before, done + {id})
    ensures ActionsCover(inventory, snapshots, Seen(snapshots) + done + {id}, actions + [Action(id, Missing, false)])
  {
    hide Seen, EffectOn;
    CoverNext(inventory, snapshots, snapshots, Seen(snapshots) + done, actions, Action(id, Missing, false));
  }

  lemma PlanMade(inventory: Inventory, snapshots: seq<Snapshot>, nextCursor: Option<string>, full: bool, plan: SyncPlan)
    requires ActionsCover(inventory, snapshots, Touched(inventory, snapshots, full), plan.actions)
    requires Counts(plan.counts, plan.actions) && plan.cursor == nextCursor
    requires plan.duplicates + |Seen(snapshots)| == |snapshots|
    ensures IsPlan(inventory, snapshots, nextCursor, full, plan)
  {
    hide ActionsCover, Touched, Counts, Total, Seen;
    CoverSize(inventory, snapshots, full, plan.actions);
    TotalIsLength(plan.counts, plan.actions);
  }

  lemma ChainedNext(runs: seq<Run>, cursor: Option<string>, run: Run)
    requires Chained(runs, cursor) && run.before == cursor
    ensures Chained(runs + [run], run.after)
  {
  }

  lemma TouchedPartial(inventory: Inventory, snapshots: seq<Snapshot>)
    ensures Touched(inventory, snapshots, false) == Seen(snapshots)
  {
  }

  lemma CoverSize(inventory: Inventory, snapshots: seq<Snapshot>, full: bool, actions: seq<Action>)
    requires ActionsCover(inventory, snapshots, Touched(inventory, snapshots, full), actions)
    ensures |actions| == |Seen(snapshots)| + if full then |inventory.Keys - Seen(snapshots)| else 0
  {
  }
}
