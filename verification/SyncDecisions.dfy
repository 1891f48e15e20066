/** What a synchronization pass decides about an item, on the fields the provider reported and those
    stored. */
module SyncDecisions {
  import opened Common
  import opened Connector
  import opened ConnectorSync

  /** A value is reported, is not empty, and is not the one stored. */
  predicate IsNew(reported: Option<string>, stored: Option<string>) {
    reported.Some? && |reported.value| > 0 && (stored.None? || reported.value != stored.value)
  }

  /** The content has another revision or another hash than the stored one. */
  predicate HasNewContent(s: Snapshot, item: Item) {
    IsNew(s.revision, item.revision) || IsNew(s.hash, item.hash)
  }

  /** What is decided about an item that is known: exactly one of these, and a fetch exactly for new,
      restored or still missing content. */
  lemma Decisions(s: Snapshot, item: Item)
    ensures var (action, fetch) := Decide(s, item);
            var same := s.accessible && !HasNewContent(s, item);
            var settled := item.status in {RetryFetch, MovedOrRenamed, PermissionsChanged, Unchanged};
            && (action == AccessRevoked <==> !s.accessible)
            && (action == ContentChanged <==> s.accessible && HasNewContent(s, item))
            && (action == Restored <==> same && item.status in {AccessRevoked, Missing})
            && (action == RetryFetch <==> same && item.status in {Discovered, ContentChanged, Restored, Failed})
            && (action == MovedOrRenamed <==> same && settled && (s.name != item.name || s.path != item.path))
            && (action == PermissionsChanged <==>
                  same && settled && s.name == item.name && s.path == item.path && s.permissions != item.permissions)
            && (action == Unchanged <==>
                  same && settled && s.name == item.name && s.path == item.path && s.permissions == item.permissions)
            && (fetch <==> action in {ContentChanged, Restored, RetryFetch})
  {
  }

  /** News: an accessible item that is not stored, has new content, or was revoked or missing. */
  lemma NewsIs(inventory: Inventory, s: Snapshot)
    ensures IsNews(inventory, s) <==>
              && s.accessible
              && (s.externalId in inventory ==>
                    || HasNewContent(s, inventory[s.externalId])
                    || inventory[s.externalId].status in {AccessRevoked, Missing})
  {
  }

  /** The snapshot that counts: no earlier one names the item. */
  lemma {:induction false} FirstIs(snapshots: seq<Snapshot>, id: string) returns (k: nat)
    requires id in Seen(snapshots)
    ensures k < |snapshots| && snapshots[k].externalId == id && FirstOf(snapshots, id) == snapshots[k]
    ensures forall j :: 0 <= j < k ==> snapshots[j].externalId != id
  {
    k := 0;
    if snapshots[0].externalId != id {
      assert id in Seen(snapshots[1..]) by {
        var i :| 0 <= i < |snapshots| && snapshots[i].externalId == id;
        assert snapshots[1..][i - 1] == snapshots[i];
      }
      k := FirstIs(snapshots[1..], id);
      k := k + 1;
      forall j | 0 <= j < k
        ensures snapshots[j].externalId != id
      {
        assert j > 0 ==> snapshots[j] == snapshots[1..][j - 1];
      }
    }
  }

  /** An item as its snapshot describes it. */
  predicate IsReported(item: Item, s: Snapshot) {
    && item.name == s.name && item.revision == s.revision && item.hash == s.hash && item.path == s.path
    && item.permissions == s.permissions && item.about == s.about
  }

  predicate IsFirst(snapshots: seq<Snapshot>, k: int, id: string) {
    && 0 <= k < |snapshots| && snapshots[k].externalId == id
    && forall j :: 0 <= j < k ==> snapshots[j].externalId != id
  }

  /** What a pass leaves of an item, and what it asks for. A reported item is stored as reported, with the
      decision as its status and its document kept; a new one is discovered and fetched if it can be
      read. An item the pass did not see is marked missing if the pass was full, else left alone. */
  lemma PassItem(inventory: Inventory, snapshots: seq<Snapshot>, full: bool, id: string)
    ensures id in Pass(inventory, snapshots, full) <==>
              id in inventory || exists k :: 0 <= k < |snapshots| && snapshots[k].externalId == id
    ensures forall k :: IsFirst(snapshots, k, id) ==>
              var s := snapshots[k];
              && id in Seen(snapshots) && id in Pass(inventory, snapshots, full)
              && var item, action := Pass(inventory, snapshots, full)[id], ActionFor(inventory, snapshots, id);
                 && IsReported(item, s) && action.externalId == id && action.action == item.status
                 && (id in inventory ==>
                       && item.logical == inventory[id].logical
                       && (item.status, action.requiresFetch) == Decide(s, inventory[id]))
                 && (id !in inventory ==>
                       && item.logical == None && action.requiresFetch == s.accessible
                       && item.status == if s.accessible then Discovered else AccessRevoked)
    ensures id in inventory && (forall k :: 0 <= k < |snapshots| ==> snapshots[k].externalId != id) ==>
              && id in Pass(inventory, snapshots, full)
              && ActionFor(inventory, snapshots, id) == Action(id, Missing, false)
              && Pass(inventory, snapshots, full)[id] ==
                   if full then inventory[id].(status := Missing) else inventory[id]
  {
    hide FirstOf, Decide;
    if id in Seen(snapshots) {
      var k := FirstIs(snapshots, id);
    }
    forall k | 0 <= k < |snapshots| && snapshots[k].externalId == id
      ensures id in Seen(snapshots)
    {
      assert snapshots[k].externalId in Seen(snapshots);
    }
  }

  /** Which items a pass reports on. */
  lemma TouchedAre(inventory: Inventory, snapshots: seq<Snapshot>, full: bool, id: string)
    ensures id in Touched(inventory, snapshots, full) <==>
              || (exists k :: 0 <= k < |snapshots| && snapshots[k].externalId == id)
              || (full && id in inventory)
  {
    if k :| 0 <= k < |snapshots| && snapshots[k].externalId == id {
      assert snapshots[k].externalId in Seen(snapshots);
    }
  }

  /** The positions of the actions of one kind. */
  function Positions(actions: seq<Action>, status: ItemStatus): set<int> {
    set i | 0 <= i < |actions| && actions[i].action == status
  }

  lemma {:induction false} TallyIs(actions: seq<Action>, status: ItemStatus)
    ensures Tally(actions, status) == |Positions(actions, status)|
  {
    if actions != [] {
      var n := |actions| - 1;
      TallyIs(actions[..n], status);
      assert Positions(actions, status) ==
               Positions(actions[..n], status) + if actions[n].action == status then {n} else {};
    }
  }

  /** The stored counts: for every kind of action how many of them there are. */
  lemma CountsAre(counts: map<ItemStatus, nat>, actions: seq<Action>, status: ItemStatus)
    requires Counts(counts, actions)
    ensures (if status in counts then counts[status] else 0) == |Positions(actions, status)|
  {
    hide Tally;
    TallyIs(actions, status);
  }

  /** The snapshot that counts for an item says it cannot be read. */
  ghost predicate IsUnreadable(snapshots: seq<Snapshot>, id: string) {
    exists k :: IsFirst(snapshots, k, id) && !snapshots[k].accessible
  }

  /** A document is marked exactly when an item it came from can no longer be read. */
  lemma RevokedMarks(inventory: Inventory, snapshots: seq<Snapshot>, logicals: map<Id, string>, l: Id)
    requires l in logicals
    ensures var marked := MarkRevoked(logicals, RevokedDocuments(inventory, snapshots));
            var revoked := exists id :: id in inventory && inventory[id].logical == Some(l) && IsUnreadable(snapshots, id);
            marked.Keys == logicals.Keys && marked[l] == if revoked then "source_access_revoked" else logicals[l]
  {
    hide FirstOf, IsUnreadable;
    forall id | id in inventory
      ensures id in Seen(snapshots) && !FirstOf(snapshots, id).accessible <==> IsUnreadable(snapshots, id)
    {
      UnreadableIs(snapshots, id);
    }
  }

  lemma UnreadableIs(snapshots: seq<Snapshot>, id: string)
    ensures IsUnreadable(snapshots, id) <==> id in Seen(snapshots) && !FirstOf(snapshots, id).accessible
  {
    if id in Seen(snapshots) {
      var k := FirstIs(snapshots, id);
      assert IsFirst(snapshots, k, id);
    }
    if k :| IsFirst(snapshots, k, id) {
      assert snapshots[k].externalId in Seen(snapshots);
    }
  }
}
