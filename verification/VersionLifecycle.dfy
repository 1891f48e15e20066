/** Document versions: clause continuity, change accounting and promotion of one version at a time. */
module VersionLifecycle {
  import opened Common
  import opened ClauseKeys

  type Id = nat

  datatype VersionStatus = Pending | Processing | Failed | Promoted

  datatype Version = Version(logical: Id, document: Id, status: VersionStatus, supersedes: Option<Id>)

  datatype Logical = Logical(active: Option<Id>)

  datatype Identity = Identity(logical: Id, key: string)

  datatype Occurrence = Occurrence(identity: Id, ordinal: nat, text: string)

  datatype ChangeType = Added | Removed | Modified

  datatype Level = Low | Medium | High

  datatype ChangeRow = ChangeRow(change: ChangeType, key: string, similarity: Option<real>, materiality: Level)

  datatype Classification =
    InitialVersion | FormattingOrNoop | WholeDocumentReplacement | MaterialClauseChange | MinorWording

  datatype ChangeSet = ChangeSet(
    baseline: Option<Id>,
    classification: Classification,
    added: nat, removed: nat, modified: nat, changed: nat, same: int,
    requiresReview: bool,
    rows: seq<ChangeRow>)

  datatype Analysis = Analysis(version: Id, classification: Classification, changed: nat, requiresReview: bool)

  /** The tables. Chunks are listed by document, clause occurrences by version, and a change set is
      stored under the version it belongs to. */
  datatype Library = Library(
    versions: map<Id, Version>,
    logicals: map<Id, Logical>,
    chunks: map<Id, seq<Chunk>>,
    identities: map<Id, Identity>,
    occurrences: map<Id, seq<Occurrence>>,
    changeSets: map<Id, ChangeSet>,
    nextId: Id)

  datatype LifecycleError = NoLogicalDocument | NoSourceChunks

  /** The library routines the analysis relies on, left open: the normal form whose hash is compared,
      whether a text mentions a material term, and how alike two texts are. */
  datatype Judge = Judge(normal: string -> string, material: string -> bool, similarity: (string, string) -> real)

  // Materiality and classification

  function MaterialityOf(judge: Judge, change: ChangeType, before: string, after: string,
                         similarity: Option<real>): Level {
    if judge.material(before + "\n" + after) then High
    else if change.Added? || change.Removed? || (similarity.Some? && similarity.value < 0.75) then Medium
    else Low
  }

  /** Clause texts by stable key. */
  type Clauses = map<string, string>

  /** The row recorded for a key of either version, if its text changed. */
  function RowFor(judge: Judge, prior: Clauses, current: Clauses, key: string): Option<ChangeRow>
    requires key in prior || key in current
  {
    if key !in prior then Some(ChangeRow(Added, key, None, MaterialityOf(judge, Added, "", current[key], None)))
    else if key !in current then Some(ChangeRow(Removed, key, None, MaterialityOf(judge, Removed, prior[key], "", None)))
    else if SameText(judge, prior, current, key) then None
    else
      var s := judge.similarity(prior[key], current[key]);
      Some(ChangeRow(Modified, key, Some(s), MaterialityOf(judge, Modified, prior[key], current[key], Some(s))))
  }

  predicate SameText(judge: Judge, prior: Clauses, current: Clauses, key: string)
    requires key in prior && key in current
  {
    judge.normal(prior[key]) == judge.normal(current[key])
  }

  function AddedKeys(prior: Clauses, current: Clauses): set<string> {
    current.Keys - prior.Keys
  }

  function RemovedKeys(prior: Clauses, current: Clauses): set<string> {
    prior.Keys - current.Keys
  }

  function ModifiedKeys(judge: Judge, prior: Clauses, current: Clauses): set<string> {
    set k | k in prior && k in current && !SameText(judge, prior, current, k)
  }

  function UnchangedKeys(judge: Judge, prior: Clauses, current: Clauses): set<string> {
    set k | k in prior && k in current && SameText(judge, prior, current, k)
  }

  /** Every clause of either version is accounted for once. */
  lemma ClauseAccounting(judge: Judge, prior: Clauses, current: Clauses)
    ensures |current| == |UnchangedKeys(judge, prior, current)| + |AddedKeys(prior, current)| + |ModifiedKeys(judge, prior, current)|
    ensures |prior| == |UnchangedKeys(judge, prior, current)| + |RemovedKeys(prior, current)| + |ModifiedKeys(judge, prior, current)|
  {
    hide SameText;
    var u, m := UnchangedKeys(judge, prior, current), ModifiedKeys(judge, prior, current);
    Partition(current.Keys, u, AddedKeys(prior, current), m);
    Partition(prior.Keys, u, RemovedKeys(prior, current), m);
    assert |current| == |current.Keys| && |prior| == |prior.Keys|;
  }

  lemma Partition<T>(whole: set<T>, a: set<T>, b: set<T>, c: set<T>)
    requires a !! b && b !! c && a !! c
    requires forall x :: x in whole <==> x in a || x in b || x in c
    ensures |whole| == |a| + |b| + |c|
  {
    assert whole == a + b + c;
    assert |a + b| == |a| + |b|;
  }

  function CountOf(rows: seq<ChangeRow>, change: ChangeType): nat {
    if rows == [] then 0
    else CountOf(rows[..|rows| - 1], change) + if rows[|rows| - 1].change == change then 1 else 0
  }

  function HighCount(rows: seq<ChangeRow>): (n: nat)
    ensures n <= |rows|
    ensures n > 0 <==> exists i :: 0 <= i < |rows| && rows[i].materiality.High?
  {
    if rows == [] then 0
    else
      assert rows == rows[..|rows| - 1] + [rows[|rows| - 1]];
      HighCount(rows[..|rows| - 1]) + if rows[|rows| - 1].materiality.High? then 1 else 0
  }

  /** At least three quarters of the larger version's clauses. */
  predicate IsReplacement(changed: nat, priorCount: nat, currentCount: nat) {
    var larger := if priorCount > currentCount then priorCount else currentCount;
    4 * changed >= 3 * (if larger > 1 then larger else 1)
  }

  /** `_classify` */
  function Classify(hasBaseline: bool, rows: seq<ChangeRow>, priorCount: nat, currentCount: nat): Classification {
    if !hasBaseline then InitialVersion
    else if rows == [] then FormattingOrNoop
    else if IsReplacement(|rows|, priorCount, currentCount) then WholeDocumentReplacement
    else if HighCount(rows) > 0 then MaterialClauseChange
    else MinorWording
  }

  function RequiresReview(classification: Classification, rows: seq<ChangeRow>): bool {
    && rows != []
    && (classification.MaterialClauseChange? || classification.WholeDocumentReplacement? || HighCount(rows) > 0)
  }

  /** A compared version goes to review exactly when it replaces most of the document or touches a
      clause of high materiality; a first version never does. */
  lemma ReviewCondition(hasBaseline: bool, rows: seq<ChangeRow>, priorCount: nat, currentCount: nat)
    requires !hasBaseline ==> rows == []
    ensures RequiresReview(Classify(hasBaseline, rows, priorCount, currentCount), rows) <==>
              && rows != []
              && (|| IsReplacement(|rows|, priorCount, currentCount)
                  || exists i :: 0 <= i < |rows| && rows[i].materiality.High?)
  {
  }

  // Change rows

  /** The comparison's rows over the keys compared so far: one for every key whose text was added,
      removed or modified, none for the others. */
  ghost predicate RowsList(judge: Judge, prior: Clauses, current: Clauses, done: set<string>, rows: seq<ChangeRow>)
    requires done <= prior.Keys + current.Keys
  {
    && (forall i :: 0 <= i < |rows| ==> rows[i].key in done && RowFor(judge, prior, current, rows[i].key) == Some(rows[i]))
    && (forall i, j :: 0 <= i < j < |rows| ==> rows[i].key != rows[j].key)
    && (forall k :: k in done && RowFor(judge, prior, current, k).Some? ==> RowFor(judge, prior, current, k).value in rows)
  }

  /** The compared keys of one kind of change. */
  function KeysOf(judge: Judge, prior: Clauses, current: Clauses, done: set<string>, change: ChangeType): set<string>
    requires done <= prior.Keys + current.Keys
  {
    set k | k in done && RowFor(judge, prior, current, k).Some? && RowFor(judge, prior, current, k).value.change == change
  }

  function Appended(rows: seq<ChangeRow>, row: Option<ChangeRow>): seq<ChangeRow> {
    if row.Some? then rows + [row.value] else rows
  }

  lemma RowsListExtend(judge: Judge, prior: Clauses, current: Clauses, done: set<string>, rows: seq<ChangeRow>,
                       key: string)
    requires done <= prior.Keys + current.Keys && key in prior.Keys + current.Keys && key !in done
    requires RowsList(judge, prior, current, done, rows)
    ensures RowsList(judge, prior, current, done + {key}, Appended(rows, RowFor(judge, prior, current, key)))
  {
  }

  lemma KeysOfStep(judge: Judge, prior: Clauses, current: Clauses, done: set<string>, key: string, change: ChangeType)
    requires done <= prior.Keys + current.Keys && key in prior.Keys + current.Keys && key !in done
    ensures KeysOf(judge, prior, current, done + {key}, change)
              == KeysOf(judge, prior, current, done, change)
                 + if RowFor(judge, prior, current, key).Some? && RowFor(judge, prior, current, key).value.change == change then {key} else {}
  {
  }

  lemma KeysOfExtend(judge: Judge, prior: Clauses, current: Clauses, done: set<string>, rows: seq<ChangeRow>,
                     key: string, change: ChangeType)
    requires done <= prior.Keys + current.Keys && key in prior.Keys + current.Keys && key !in done
    requires CountOf(rows, change) == |KeysOf(judge, prior, current, done, change)|
    ensures CountOf(Appended(rows, RowFor(judge, prior, current, key)), change)
              == |KeysOf(judge, prior, current, done + {key}, change)|
  {
    KeysOfStep(judge, prior, current, done, key, change);
    assert key !in KeysOf(judge, prior, current, done, change);
    hide RowFor, KeysOf;
    var row := RowFor(judge, prior, current, key);
    if row.Some? {
      assert (rows + [row.value])[..|rows|] == rows;
    }
  }

  lemma KeysOfAll(judge: Judge, prior: Clauses, current: Clauses)
    ensures KeysOf(judge, prior, current, prior.Keys + current.Keys, Added) == AddedKeys(prior, current)
    ensures KeysOf(judge, prior, current, prior.Keys + current.Keys, Removed) == RemovedKeys(prior, current)
    ensures KeysOf(judge, prior, current, prior.Keys + current.Keys, Modified) == ModifiedKeys(judge, prior, current)
  {
  }

  lemma {:induction false} CountsSum(rows: seq<ChangeRow>)
    ensures CountOf(rows, Added) + CountOf(rows, Removed) + CountOf(rows, Modified) == |rows|
  {
    if rows != [] {
      CountsSum(rows[..|rows| - 1]);
    }
  }

  /** A change set's summary and verdict, for clauses compared with a baseline's. Without a baseline
      nothing is compared: the version stands against itself. */
  ghost predicate Accounts(judge: Judge, cs: ChangeSet, prior: Clauses, current: Clauses) {
    && cs.added == |AddedKeys(prior, current)|
    && cs.removed == |RemovedKeys(prior, current)|
    && cs.modified == |ModifiedKeys(judge, prior, current)|
    && cs.same == |UnchangedKeys(judge, prior, current)|
    && cs.changed == |cs.rows|
    && RowsList(judge, prior, current, prior.Keys + current.Keys, cs.rows)
    && cs.classification == Classify(cs.baseline.Some?, cs.rows, |prior|, |current|)
    && cs.requiresReview == RequiresReview(cs.classification, cs.rows)
  }

  // Reading a version's clauses back

  ghost predicate IdentitiesUnique(identities: map<Id, Identity>) {
    forall x, y :: x in identities && y in identities && identities[x] == identities[y] ==> x == y
  }

  ghost predicate RowsKnown(identities: map<Id, Identity>, rows: seq<Occurrence>) {
    forall i :: 0 <= i < |rows| ==> rows[i].identity in identities
  }

  /** The dictionary built from a version's occurrence rows; a later row with the same key would
      replace an earlier one. */
  ghost function ClausesOf(identities: map<Id, Identity>, rows: seq<Occurrence>): Clauses
    requires RowsKnown(identities, rows)
  {
    if rows == [] then map[]
    else
      var last := rows[|rows| - 1];
      ClausesOf(identities, rows[..|rows| - 1])[identities[last.identity].key := last.text]
  }

  ghost function RowKeys(identities: map<Id, Identity>, rows: seq<Occurrence>): set<string>
    requires RowsKnown(identities, rows)
  {
    set i | 0 <= i < |rows| :: identities[rows[i].identity].key
  }

  /** A version's rows: numbered from 0, of its own logical document, no key twice. */
  ghost predicate RowsOk(identities: map<Id, Identity>, logical: Id, rows: seq<Occurrence>) {
    && RowsKnown(identities, rows)
    && (forall i :: 0 <= i < |rows| ==> identities[rows[i].identity].logical == logical && rows[i].ordinal == i)
    && (forall i, j :: 0 <= i < j < |rows| ==> identities[rows[i].identity].key != identities[rows[j].identity].key)
  }

  lemma {:induction false} ClausesOfKeys(identities: map<Id, Identity>, rows: seq<Occurrence>)
    requires RowsKnown(identities, rows)
    ensures ClausesOf(identities, rows).Keys == RowKeys(identities, rows)
  {
    if rows != [] {
      var n := |rows| - 1;
      ClausesOfKeys(identities, rows[..n]);
      assert RowKeys(identities, rows) == RowKeys(identities, rows[..n]) + {identities[rows[n].identity].key};
    }
  }

  /** No row overwrites another: the dictionary has one clause per row. */
  lemma {:induction false} OneClausePerRow(identities: map<Id, Identity>, logical: Id, rows: seq<Occurrence>)
    requires RowsOk(identities, logical, rows)
    ensures |ClausesOf(identities, rows)| == |rows|
  {
    if rows != [] {
      var n := |rows| - 1;
      OneClausePerRow(identities, logical, rows[..n]);
      ClausesOfKeys(identities, rows[..n]);
    }
  }

  ghost predicate Extends(identities: map<Id, Identity>, identities': map<Id, Identity>) {
    forall i :: i in identities ==> i in identities' && identities'[i] == identities[i]
  }

  lemma {:induction false} ClausesOfStable(identities: map<Id, Identity>, identities': map<Id, Identity>,
                                           rows: seq<Occurrence>)
    requires RowsKnown(identities, rows) && Extends(identities, identities')
    ensures RowsKnown(identities', rows)
    ensures ClausesOf(identities, rows) == ClausesOf(identities', rows)
  {
    if rows != [] {
      ClausesOfStable(identities, identities', rows[..|rows| - 1]);
    }
  }

  /** A version's rows follow its chunks: row `i` carries chunk `i`'s key and text. */
  ghost predicate RowsFollow(identities: map<Id, Identity>, logical: Id, rows: seq<Occurrence>, chunks: seq<Chunk>,
                             n: nat)
    requires n <= |chunks|
  {
    && |rows| == n
    && forall i :: 0 <= i < n ==>
         && rows[i].identity in identities
         && identities[rows[i].identity] == Identity(logical, StableKey(chunks, i))
         && rows[i].ordinal == i
         && rows[i].text == chunks[i].content
  }

  /** Because no two chunks share a key, the rows written for them name pairwise distinct clauses. */
  lemma FollowingRowsOk(identities: map<Id, Identity>, logical: Id, rows: seq<Occurrence>, chunks: seq<Chunk>, n: nat)
    requires n <= |chunks|
    requires RowsFollow(identities, logical, rows, chunks, n)
    ensures RowsOk(identities, logical, rows)
  {
    hide StableKey;
    forall i, j | 0 <= i < j < |rows|
      ensures identities[rows[i].identity].key != identities[rows[j].identity].key
    {
      StableKeysDistinct(chunks, i, j);
    }
  }

  // History

  /** `h` lists a logical document's promoted versions from the initial one to the active one, each
      superseding the one before. */
  ghost predicate IsHistory(lib: Library, logical: Id, h: seq<Id>) {
    && logical in lib.logicals
    && NoDuplicates(h)
    && (forall v :: v in h <==> v in lib.versions && lib.versions[v].logical == logical && lib.versions[v].status.Promoted?)
    && (forall i :: 0 <= i < |h| ==> h[i] in lib.versions)
    && (h != [] ==> lib.versions[h[0]].supersedes == None)
    && (forall i, j :: 0 <= i < j < |h| && j == i + 1 ==> lib.versions[h[j]].supersedes == Some(h[i]))
    && lib.logicals[logical].active == if h == [] then None else Some(h[|h| - 1])
  }

  /** Walking back from a version along `supersedes`, at most `fuel` versions. */
  function Walk(versions: map<Id, Version>, from: Option<Id>, fuel: nat): seq<Id>
    decreases fuel
  {
    if fuel == 0 || from.None? || from.value !in versions then []
    else [from.value] + Walk(versions, versions[from.value].supersedes, fuel - 1)
  }

  function Reversed(s: seq<Id>): seq<Id> {
    if s == [] then [] else [s[|s| - 1]] + Reversed(s[..|s| - 1])
  }

  lemma {:induction false} WalkFollows(lib: Library, logical: Id, h: seq<Id>, n: nat, fuel: nat)
    requires IsHistory(lib, logical, h)
    requires n <= |h| && fuel >= n
    ensures Walk(lib.versions, if n == 0 then None else Some(h[n - 1]), fuel) == Reversed(h[..n])
  {
    if n > 0 {
      WalkFollows(lib, logical, h, n - 1, fuel - 1);
      assert h[..n][..n - 1] == h[..n - 1];
    }
  }

  // The invariant

  ghost predicate VersionsOk(lib: Library) {
    && (forall v :: v in lib.versions ==> v < lib.nextId && lib.versions[v].logical in lib.logicals)
    && (forall v, w :: v in lib.versions && w in lib.versions && lib.versions[v].document == lib.versions[w].document ==> v == w)
    && (forall v :: v in lib.changeSets <==> v in lib.versions && lib.versions[v].status.Promoted?)
  }

  ghost predicate IdentitiesOk(identities: map<Id, Identity>, nextId: Id) {
    && (forall i :: i in identities ==> i < nextId)
    && IdentitiesUnique(identities)
  }

  /** A promoted version's rows are in order, and its change set compares them with the rows of the
      version it superseded. */
  ghost predicate PromotedOk(judge: Judge, lib: Library, v: Id)
    requires v in lib.versions && v in lib.changeSets
  {
    var cs := lib.changeSets[v];
    && v in lib.occurrences
    && RowsOk(lib.identities, lib.versions[v].logical, lib.occurrences[v])
    && cs.baseline == lib.versions[v].supersedes
    && (cs.baseline.Some? ==>
          && cs.baseline.value in lib.occurrences
          && cs.baseline.value in lib.versions
          && lib.versions[cs.baseline.value].logical == lib.versions[v].logical
          && RowsOk(lib.identities, lib.versions[v].logical, lib.occurrences[cs.baseline.value]))
    && var current := ClausesOf(lib.identities, lib.occurrences[v]);
       Accounts(judge, cs, if cs.baseline.Some? then ClausesOf(lib.identities, lib.occurrences[cs.baseline.value]) else current, current)
  }

  ghost predicate AllPromotedOk(judge: Judge, lib: Library)
    requires VersionsOk(lib)
  {
    forall v :: v in lib.changeSets ==> PromotedOk(judge, lib, v)
  }

  ghost predicate Linear(lib: Library) {
    forall l :: l in lib.logicals ==> exists h :: IsHistory(lib, l, h)
  }

  ghost predicate LibraryOk(judge: Judge, lib: Library) {
    && VersionsOk(lib)
    && IdentitiesOk(lib.identities, lib.nextId)
    && (forall l :: l in lib.logicals ==> l < lib.nextId)
    && AllPromotedOk(judge, lib)
    && Linear(lib)
  }

  /** In a consistent library, walking back from the active version visits every promoted version of
      the logical document exactly once and stops at the initial one. */
  lemma LinearHistory(judge: Judge, lib: Library, logical: Id) returns (h: seq<Id>)
    requires LibraryOk(judge, lib) && logical in lib.logicals
    ensures IsHistory(lib, logical, h) && logical in lib.logicals
    ensures forall fuel: nat :: fuel >= |h| ==> Walk(lib.versions, lib.logicals[logical].active, fuel) == Reversed(h)
  {
    hide VersionsOk, IdentitiesOk, AllPromotedOk, IsHistory;
    h :| IsHistory(lib, logical, h);
    WalkHistory(lib, logical, h);
  }

  lemma WalkHistory(lib: Library, logical: Id, h: seq<Id>)
    requires IsHistory(lib, logical, h)
    ensures forall fuel: nat :: fuel >= |h| ==> Walk(lib.versions, lib.logicals[logical].active, fuel) == Reversed(h)
  {
    assert lib.logicals[logical].active == if |h| == 0 then None else Some(h[|h| - 1]);
    hide IsHistory, Walk, Reversed;
    forall fuel: nat | fuel >= |h|
      ensures Walk(lib.versions, lib.logicals[logical].active, fuel) == Reversed(h)
    {
      WalkFollows(lib, logical, h, |h|, fuel);
      assert h[..|h|] == h;
    }
  }

  /** In a consistent library the recorded counts add up: every clause of a promoted version is
      unchanged, added or modified, and every clause of its baseline unchanged, removed or modified.
      Two rows of a version never name the same clause. */
  lemma PromotedAccounting(judge: Judge, lib: Library, v: Id)
    requires LibraryOk(judge, lib) && v in lib.changeSets
    ensures v in lib.occurrences && RowsOk(lib.identities, lib.versions[v].logical, lib.occurrences[v])
    ensures var cs := lib.changeSets[v];
            && |lib.occurrences[v]| == cs.same + cs.added + cs.modified
            && cs.changed == cs.added + cs.removed + cs.modified
            && (cs.baseline.Some? ==>
                  && cs.baseline.value in lib.occurrences
                  && |lib.occurrences[cs.baseline.value]| == cs.same + cs.removed + cs.modified)
  {
    hide RowsList, Classify, RequiresReview, IdentitiesOk, Linear;
    assert PromotedOk(judge, lib, v);
    var cs := lib.changeSets[v];
    var logical := lib.versions[v].logical;
    var current := ClausesOf(lib.identities, lib.occurrences[v]);
    var prior := if cs.baseline.Some? then ClausesOf(lib.identities, lib.occurrences[cs.baseline.value]) else current;
    OneClausePerRow(lib.identities, logical, lib.occurrences[v]);
    ClauseAccounting(judge, prior, current);
    if cs.baseline.Some? {
      OneClausePerRow(lib.identities, logical, lib.occurrences[cs.baseline.value]);
    }
    RowsAreChanges(judge, prior, current, cs.rows);
  }

  /** As many rows as added, removed and modified clauses. */
  lemma RowsAreChanges(judge: Judge, prior: Clauses, current: Clauses, rows: seq<ChangeRow>)
    requires RowsList(judge, prior, current, prior.Keys + current.Keys, rows)
    ensures |rows| == |AddedKeys(prior, current)| + |RemovedKeys(prior, current)| + |ModifiedKeys(judge, prior, current)|
  {
    var keys := set i | 0 <= i < |rows| :: rows[i].key;
    KeysAreRows(rows, |rows|);
    var changed := AddedKeys(prior, current) + RemovedKeys(prior, current) + ModifiedKeys(judge, prior, current);
    forall k | k in changed
      ensures k in keys
    {
      var row := RowFor(judge, prior, current, k);
      assert row.Some? && row.value.key == k && row.value in rows;
    }
    assert keys == changed;
  }

  lemma {:induction false} KeysAreRows(rows: seq<ChangeRow>, n: nat)
    requires n <= |rows|
    requires forall i, j :: 0 <= i < j < |rows| ==> rows[i].key != rows[j].key
    ensures |set i | 0 <= i < n :: rows[i].key| == n
  {
    if n > 0 {
      KeysAreRows(rows, n - 1);
      assert (set i | 0 <= i < n :: rows[i].key) == (set i | 0 <= i < n - 1 :: rows[i].key) + {rows[n - 1].key};
    }
  }
}
