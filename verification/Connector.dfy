/** Reconciling a connector's inventory with what the provider reports. */
module Connector {
  import opened Common

  type Id = nat

  datatype ItemStatus =
    | Discovered | ContentChanged | Restored | RetryFetch | MovedOrRenamed | PermissionsChanged | Unchanged
    | AccessRevoked | Missing | Failed

  /** Columns a pass copies without looking at them. */
  datatype About = About(mimeType: Option<string>, sizeBytes: Option<int>, webUrl: Option<string>, modifiedAt: Option<int>)

  datatype Snapshot = Snapshot(
    externalId: string, name: string, revision: Option<string>, hash: Option<string>, path: Option<string>,
    permissions: Option<string>, about: About, accessible: bool)

  datatype Item = Item(
    name: string, revision: Option<string>, hash: Option<string>, path: Option<string>, permissions: Option<string>,
    about: About, logical: Option<Id>, status: ItemStatus)

  /** A connection's items by external id, which is unique within it. */
  type Inventory = map<string, Item>

  datatype Action = Action(externalId: string, action: ItemStatus, requiresFetch: bool)

  datatype Connection = Connection(revoked: bool, cursor: Option<string>)

  datatype Run = Run(full: bool, before: Option<string>, after: Option<string>, counts: map<ItemStatus, nat>, duplicates: nat)

  /** What one snapshot does to the item it names. */
  datatype Effect = Effect(item: Item, requiresFetch: bool)

  /** A new value counts as different only when it is present and not empty. */
  predicate Differs(reported: Option<string>, stored: Option<string>) {
    reported.Some? && reported.value != "" && reported != stored
  }

  predicate IsContentChanged(s: Snapshot, item: Item) {
    Differs(s.revision, item.revision) || Differs(s.hash, item.hash)
  }

  predicate IsPending(status: ItemStatus) {
    status.Discovered? || status.ContentChanged? || status.Restored? || status.Failed?
  }

  function Decide(s: Snapshot, item: Item): (ItemStatus, bool) {
    if !s.accessible then (AccessRevoked, false)
    else if IsContentChanged(s, item) then (ContentChanged, true)
    else if item.status.AccessRevoked? || item.status.Missing? then (Restored, true)
    else if IsPending(item.status) then (RetryFetch, true)
    else if s.name != item.name || s.path != item.path then (MovedOrRenamed, false)
    else if s.permissions != item.permissions then (PermissionsChanged, false)
    else (Unchanged, false)
  }

  function Reported(s: Snapshot, logical: Option<Id>, status: ItemStatus): Item {
    Item(s.name, s.revision, s.hash, s.path, s.permissions, s.about, logical, status)
  }

  function EffectOn(inventory: Inventory, s: Snapshot): Effect {
    if s.externalId !in inventory then
      Effect(Reported(s, None, if s.accessible then Discovered else AccessRevoked), s.accessible)
    else
      var item := inventory[s.externalId];
      var (action, fetch) := Decide(s, item);
      Effect(Reported(s, item.logical, action), fetch)
  }

  function Seen(snapshots: seq<Snapshot>): set<string> {
    set i | 0 <= i < |snapshots| :: snapshots[i].externalId
  }

  /** The first snapshot naming an item; later ones in the same pass are duplicates. */
  function FirstOf(snapshots: seq<Snapshot>, id: string): (s: Snapshot)
    requires id in Seen(snapshots)
    ensures s in snapshots && s.externalId == id
  {
    if snapshots[0].externalId == id then snapshots[0] else FirstOf(snapshots[1..], id)
  }

  lemma {:induction false} FirstOfAppend(snapshots: seq<Snapshot>, s: Snapshot, id: string)
    requires id in Seen(snapshots + [s])
    ensures FirstOf(snapshots + [s], id) == if id in Seen(snapshots) then FirstOf(snapshots, id) else s
  {
    if snapshots == [] {
      assert (snapshots + [s])[0] == s;
    } else if snapshots[0].externalId != id {
      assert (snapshots + [s])[1..] == snapshots[1..] + [s];
      FirstOfAppend(snapshots[1..], s, id);
    }
  }

  /** The inventory after one pass. */
  function Pass(inventory: Inventory, snapshots: seq<Snapshot>, full: bool): Inventory {
    map id | id in inventory.Keys + Seen(snapshots) ::
      if id in Seen(snapshots) then EffectOn(inventory, FirstOf(snapshots, id)).item
      else if full then inventory[id].(status := Missing)
      else inventory[id]
  }

  function ActionFor(inventory: Inventory, snapshots: seq<Snapshot>, id: string): Action
    requires id in inventory || id in Seen(snapshots)
  {
    if id in Seen(snapshots) then
      var effect := EffectOn(inventory, FirstOf(snapshots, id));
      Action(id, effect.item.status, effect.requiresFetch)
    else Action(id, Missing, false)
  }

  /** The items a pass reports on: those seen and, in a full pass, those missing from it. */
  function Touched(inventory: Inventory, snapshots: seq<Snapshot>, full: bool): set<string> {
    if full then Seen(snapshots) + inventory.Keys else Seen(snapshots)
  }

  /** One action for each of these items, and no other. */
  ghost predicate ActionsCover(inventory: Inventory, snapshots: seq<Snapshot>, ids: set<string>, actions: seq<Action>)
    requires ids <= inventory.Keys + Seen(snapshots)
  {
    && |actions| == |ids|
    && (forall i, j :: 0 <= i < j < |actions| ==> actions[i].externalId != actions[j].externalId)
    && (forall i :: 0 <= i < |actions| ==>
          actions[i].externalId in ids && actions[i] == ActionFor(inventory, snapshots, actions[i].externalId))
  }

  lemma ActionsCoverAll(inventory: Inventory, snapshots: seq<Snapshot>, ids: set<string>, actions: seq<Action>,
                        id: string)
    requires ids <= inventory.Keys + Seen(snapshots)
    requires ActionsCover(inventory, snapshots, ids, actions) && id in ids
    ensures ActionFor(inventory, snapshots, id) in actions
  {
    hide ActionFor, Seen;
    var named := set i | 0 <= i < |actions| :: actions[i].externalId;
    NamedCount(actions, |actions|);
    SubsetOfSameSize(named, ids);
    var i :| 0 <= i < |actions| && actions[i].externalId == id;
  }

  lemma {:induction false} NamedCount(actions: seq<Action>, n: nat)
    requires n <= |actions|
    requires forall i, j :: 0 <= i < j < |actions| ==> actions[i].externalId != actions[j].externalId
    ensures |set i | 0 <= i < n :: actions[i].externalId| == n
  {
    if n > 0 {
      NamedCount(actions, n - 1);
      assert (set i | 0 <= i < n :: actions[i].externalId)
          == (set i | 0 <= i < n - 1 :: actions[i].externalId) + {actions[n - 1].externalId};
    }
  }

  lemma SubsetOfSameSize<T>(a: set<T>, b: set<T>)
    requires a <= b && |a| == |b|
    ensures a == b
  {
    assert |b - a| == |b| - |a|;
  }

  // Counting

  function Tally(actions: seq<Action>, status: ItemStatus): nat {
    if actions == [] then 0
    else Tally(actions[..|actions| - 1], status) + if actions[|actions| - 1].action == status then 1 else 0
  }

  function CountIn(counts: map<ItemStatus, nat>, status: ItemStatus): nat {
    if status in counts then counts[status] else 0
  }

  ghost predicate Counts(counts: map<ItemStatus, nat>, actions: seq<Action>) {
    forall status :: CountIn(counts, status) == Tally(actions, status)
  }

  function Total(counts: map<ItemStatus, nat>): nat {
    CountIn(counts, Discovered) + CountIn(counts, ContentChanged) + CountIn(counts, Restored) + CountIn(counts, RetryFetch)
    + CountIn(counts, MovedOrRenamed) + CountIn(counts, PermissionsChanged) + CountIn(counts, Unchanged)
    + CountIn(counts, AccessRevoked) + CountIn(counts, Missing) + CountIn(counts, Failed)
  }

  /** Every action is of one of the ten kinds. */
  lemma {:induction false} TalliesTotal(actions: seq<Action>)
    ensures Tally(actions, Discovered) + Tally(actions, ContentChanged) + Tally(actions, Restored) + Tally(actions, RetryFetch)
            + Tally(actions, MovedOrRenamed) + Tally(actions, PermissionsChanged) + Tally(actions, Unchanged)
            + Tally(actions, AccessRevoked) + Tally(actions, Missing) + Tally(actions, Failed) == |actions|
  {
    if actions != [] {
      TalliesTotal(actions[..|actions| - 1]);
    }
  }

  /** The counts add up to the number of actions. */
  lemma TotalIsLength(counts: map<ItemStatus, nat>, actions: seq<Action>)
    requires Counts(counts, actions)
    ensures Total(counts) == |actions|
  {
    hide Tally, CountIn;
    TalliesTotal(actions);
  }

  // Repeated passes

  /** What a complete pass leaves of an item it saw. */
  lemma PassSeen(inventory: Inventory, snapshots: seq<Snapshot>, full: bool, id: string)
    requires id in Seen(snapshots)
    ensures var s, after := FirstOf(snapshots, id), Pass(inventory, snapshots, full);
            && id in after
            && after[id] == Reported(s, after[id].logical, after[id].status)
            && (id in inventory ==> after[id].logical == inventory[id].logical && after[id].status == Decide(s, inventory[id]).0)
            && (id !in inventory ==> after[id].status == if s.accessible then Discovered else AccessRevoked)
            && (!s.accessible ==> after[id].status.AccessRevoked?)
            && (s.accessible ==> !after[id].status.AccessRevoked? && !after[id].status.Missing? && !after[id].status.Failed?)
  {
  }

  /** The same snapshot again: nothing about the item differs, so only its status decides. */
  lemma SameSnapshotAgain(s: Snapshot, logical: Option<Id>, status: ItemStatus)
    requires s.accessible && !status.AccessRevoked? && !status.Missing?
    ensures Decide(s, Reported(s, logical, status)) == if IsPending(status) then (RetryFetch, true) else (Unchanged, false)
  {
  }

  /** A reported item whose content is news to the inventory: it is new, changed, or back. */
  predicate IsNews(inventory: Inventory, s: Snapshot) {
    && s.accessible
    && (|| s.externalId !in inventory
        || IsContentChanged(s, inventory[s.externalId])
        || inventory[s.externalId].status.AccessRevoked?
        || inventory[s.externalId].status.Missing?)
  }

  /** A pass leaves an item waiting for its content exactly when it was news. */
  lemma WaitingIsNews(inventory: Inventory, snapshots: seq<Snapshot>, id: string)
    requires id in Seen(snapshots)
    ensures id in Pass(inventory, snapshots, true)
    ensures IsPending(Pass(inventory, snapshots, true)[id].status) <==> IsNews(inventory, FirstOf(snapshots, id))
  {
    hide FirstOf, Pass;
    PassSeen(inventory, snapshots, true, id);
  }

  predicate Settled(status: ItemStatus) {
    status.Unchanged? || status.AccessRevoked? || status.Missing?
  }

  /** Replaying one full snapshot with no fetch in between settles by the third pass: from then on no
      pass changes the inventory. */
  lemma ThirdPassSettles(inventory: Inventory, snapshots: seq<Snapshot>)
    ensures var third := Pass(Pass(Pass(inventory, snapshots, true), snapshots, true), snapshots, true);
            && (forall id :: id in third ==> Settled(third[id].status))
            && Pass(third, snapshots, true) == third
  {
    var first := Pass(inventory, snapshots, true);
    var second := Pass(first, snapshots, true);
    var third := Pass(second, snapshots, true);
    var fourth := Pass(third, snapshots, true);
    forall id | id in third
      ensures id in fourth && Settled(third[id].status) && fourth[id] == third[id]
    {
      if id in Seen(snapshots) {
        SettlesItem(inventory, snapshots, id);
      }
    }
    assert third.Keys == fourth.Keys;
  }

  lemma SettlesItem(inventory: Inventory, snapshots: seq<Snapshot>, id: string)
    requires id in Seen(snapshots)
    ensures var third := Pass(Pass(Pass(inventory, snapshots, true), snapshots, true), snapshots, true);
            var fourth := Pass(third, snapshots, true);
            && id in third && id in fourth && Settled(third[id].status) && fourth[id] == third[id]
            && third[id].status == if FirstOf(snapshots, id).accessible then Unchanged else AccessRevoked
  {
    hide Pass, Decide, FirstOf;
    var s := FirstOf(snapshots, id);
    var first := Pass(inventory, snapshots, true);
    var second := Pass(first, snapshots, true);
    var third := Pass(second, snapshots, true);
    PassSeen(inventory, snapshots, true, id);
    PassSeen(first, snapshots, true, id);
    PassSeen(second, snapshots, true, id);
    PassSeen(third, snapshots, true, id);
    if s.accessible {
      SameSnapshotAgain(s, first[id].logical, first[id].status);
      SameSnapshotAgain(s, second[id].logical, second[id].status);
      SameSnapshotAgain(s, third[id].logical, third[id].status);
    }
  }

  /** Two passes settle the inventory exactly when the snapshot brought no news: what was news is asked
      for once more in the second pass. */
  lemma SecondPassSettles(inventory: Inventory, snapshots: seq<Snapshot>)
    ensures var second := Pass(Pass(inventory, snapshots, true), snapshots, true);
            Pass(second, snapshots, true) == second <==>
              forall id :: id in Seen(snapshots) ==> !IsNews(inventory, FirstOf(snapshots, id))
  {
    hide FirstOf, IsNews;
    var first := Pass(inventory, snapshots, true);
    var second := Pass(first, snapshots, true);
    var third := Pass(second, snapshots, true);
    forall id | id in Seen(snapshots)
      ensures id in second && id in third
      ensures third[id] == second[id] <==> !IsNews(inventory, FirstOf(snapshots, id))
    {
      SecondPassItem(inventory, snapshots, id);
      WaitingIsNews(inventory, snapshots, id);
    }
    assert third.Keys == second.Keys;
    forall id | id in second && id !in Seen(snapshots)
      ensures third[id] == second[id]
    {
    }
    hide Pass;
    if forall id :: id in Seen(snapshots) ==> !IsNews(inventory, FirstOf(snapshots, id)) {
      assert third == second;
    }
  }

  lemma SecondPassItem(inventory: Inventory, snapshots: seq<Snapshot>, id: string)
    requires id in Seen(snapshots)
    ensures var first := Pass(inventory, snapshots, true);
            var second := Pass(first, snapshots, true);
            var third := Pass(second, snapshots, true);
            && id in first && id in second && id in third
            && (third[id] == second[id] <==> !IsPending(first[id].status))
  {
    hide Pass, Decide, FirstOf;
    var s := FirstOf(snapshots, id);
    var first := Pass(inventory, snapshots, true);
    var second := Pass(first, snapshots, true);
    PassSeen(inventory, snapshots, true, id);
    PassSeen(first, snapshots, true, id);
    PassSeen(second, snapshots, true, id);
    if s.accessible {
      SameSnapshotAgain(s, first[id].logical, first[id].status);
      SameSnapshotAgain(s, second[id].logical, second[id].status);
    }
  }

  /** When an item's content is asked for, its snapshot staying the same: in the first pass exactly if it
      is news or was waiting, in the second exactly if it was news, and from the third on never, arrived
      or not. */
  lemma FetchesAsked(inventory: Inventory, snapshots: seq<Snapshot>, id: string)
    requires id in Seen(snapshots)
    ensures var s := FirstOf(snapshots, id);
            var first := Pass(inventory, snapshots, true);
            var second := Pass(first, snapshots, true);
            && (ActionFor(inventory, snapshots, id).requiresFetch <==>
                  IsNews(inventory, s) || (s.accessible && id in inventory && IsPending(inventory[id].status)))
            && (ActionFor(first, snapshots, id).requiresFetch <==> IsNews(inventory, s))
            && !ActionFor(second, snapshots, id).requiresFetch
  {
    hide Pass, FirstOf;
    var s := FirstOf(snapshots, id);
    var first := Pass(inventory, snapshots, true);
    var second := Pass(first, snapshots, true);
    WaitingIsNews(inventory, snapshots, id);
    PassSeen(inventory, snapshots, true, id);
    PassSeen(first, snapshots, true, id);
    PassSeen(second, snapshots, true, id);
    if s.accessible {
      SameSnapshotAgain(s, first[id].logical, first[id].status);
      SameSnapshotAgain(s, second[id].logical, second[id].status);
    }
  }

  const NEW_FILE := Snapshot("f", "f.pdf", None, None, None, None, About(None, None, None, None), true)

  /** A new file whose content never arrives: asked for twice, then taken as unchanged. */
  lemma LapsedFetchExample()
    ensures var first := Pass(map[], [NEW_FILE], true);
            var second := Pass(first, [NEW_FILE], true);
            && "f" in Seen([NEW_FILE])
            && ActionFor(map[], [NEW_FILE], "f") == Action("f", Discovered, true)
            && ActionFor(first, [NEW_FILE], "f") == Action("f", RetryFetch, true)
            && ActionFor(second, [NEW_FILE], "f") == Action("f", Unchanged, false)
  {
    hide Pass;
    assert [NEW_FILE][0].externalId == "f";
    assert "f" in Seen([NEW_FILE]) && FirstOf([NEW_FILE], "f") == NEW_FILE;
    var first := Pass(map[], [NEW_FILE], true);
    PassSeen(map[], [NEW_FILE], true, "f");
    PassSeen(first, [NEW_FILE], true, "f");
    SameSnapshotAgain(NEW_FILE, first["f"].logical, first["f"].status);
    var second := Pass(first, [NEW_FILE], true);
    SameSnapshotAgain(NEW_FILE, second["f"].logical, second["f"].status);
  }
}
