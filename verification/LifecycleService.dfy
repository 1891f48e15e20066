/** The lifecycle service over its tables, each call proved against the call relation. */
module LifecycleServices {
  import opened Common
  import opened ClauseKeys
  import opened KeyText
  import opened VersionLifecycle
  import opened LifecycleRuns

  /** One row per changed key, in no particular order, with the number of rows of each kind. */
  method CompareClauses(judge: Judge, prior: Clauses, current: Clauses)
    returns (rows: seq<ChangeRow>, added: nat, removed: nat, modified: nat)
    ensures RowsList(judge, prior, current, prior.Keys + current.Keys, rows)
    ensures added == |AddedKeys(prior, current)|
    ensures removed == |RemovedKeys(prior, current)|
    ensures modified == |ModifiedKeys(judge, prior, current)|
    ensures added + removed + modified == |rows|
  {
    hide RowFor, KeysOf, RowsList, CountOf;
    rows, added, removed, modified := [], 0, 0, 0;
    var keys := prior.Keys + current.Keys;
    var left := keys;
    NoKeysYet(judge, prior, current);
    while left != {}
      invariant left <= keys
      invariant RowsList(judge, prior, current, keys - left, rows)
      invariant CountOf(rows, Added) == added == |KeysOf(judge, prior, current, keys - left, Added)|
      invariant CountOf(rows, Removed) == removed == |KeysOf(judge, prior, current, keys - left, Removed)|
      invariant CountOf(rows, Modified) == modified == |KeysOf(judge, prior, current, keys - left, Modified)|
      decreases |left|
    {
      var key :| key in left;
      ghost var done := keys - left;
      var row := RowFor(judge, prior, current, key);
      RowsListExtend(judge, prior, current, done, rows, key);
      KeysOfExtend(judge, prior, current, done, rows, key, Added);
      KeysOfExtend(judge, prior, current, done, rows, key, Removed);
      KeysOfExtend(judge, prior, current, done, rows, key, Modified);
      assert keys - (left - {key}) == done + {key};
      if row.Some? {
        CountAppended(rows, row.value);
        rows := rows + [row.value];
        match row.value.change
        case Added => added := added + 1;
        case Removed => removed := removed + 1;
        case Modified => modified := modified + 1;
      }
      left := left - {key};
    }
    assert keys - left == keys;
    KeysOfAll(judge, prior, current);
    CountsSum(rows);
  }

  /** The change set of a version: the comparison with the baseline's clauses, or none at all without
      a baseline. */
  method BuildChangeSet(judge: Judge, baseline: Option<Id>, prior: Clauses, current: Clauses) returns (cs: ChangeSet)
    requires baseline.None? ==> prior == map[]
    ensures cs.baseline == baseline
    ensures Accounts(judge, cs, if baseline.Some? then prior else current, current)
    ensures baseline.None? ==> cs.classification.InitialVersion?
  {
    hide RowsList, IsReplacement, RequiresReview, AddedKeys, RemovedKeys, ModifiedKeys, UnchangedKeys;
    var rows: seq<ChangeRow>, added: nat, removed: nat, modified: nat := [], 0, 0, 0;
    if baseline.Some? {
      rows, added, removed, modified := CompareClauses(judge, prior, current);
      ClauseAccounting(judge, prior, current);
    } else {
      SameClauses(judge, current);
    }
    var classification := Classify(baseline.Some?, rows, |prior|, |current|);
    var rest := |current| - added - modified;
    cs := ChangeSet(baseline, classification, added, removed, modified, |rows|, if rest > 0 then rest else 0,
                    RequiresReview(classification, rows), rows);
  }

  lemma NoKeysYet(judge: Judge, prior: Clauses, current: Clauses)
    ensures RowsList(judge, prior, current, {}, [])
    ensures forall c :: KeysOf(judge, prior, current, {}, c) == {} && CountOf([], c) == 0
  {
  }

  lemma CountAppended(rows: seq<ChangeRow>, row: ChangeRow)
    ensures forall c :: CountOf(rows + [row], c) == CountOf(rows, c) + if row.change == c then 1 else 0
  {
  }

  /** The counter after the first `n` chunks. */
  ghost predicate Counted(seen: map<string, nat>, chunks: seq<Chunk>, n: nat)
    requires n <= |chunks|
  {
    forall slug :: Seen(chunks, n, slug) == if slug in seen then seen[slug] else 0
  }

  /** Identities remembered by key belong to the logical document and carry that key. */
  ghost predicate Remembered(byKey: map<string, Id>, identities: map<Id, Identity>, logical: Id) {
    forall k :: k in byKey ==> byKey[k] in identities && identities[byKey[k]] == Identity(logical, k)
  }

  lemma NothingYet(identities: map<Id, Identity>, logical: Id, chunks: seq<Chunk>)
    ensures Counted(map[], chunks, 0)
    ensures RowsFollow(identities, logical, [], chunks, 0)
    ensures ClausesOf(identities, []) == map[]
    ensures Remembered(map[], identities, logical)
  {
  }

  /** Counting chunk `i`'s slug gives its stable key. */
  lemma CountedNext(chunks: seq<Chunk>, i: nat, seen: map<string, nat>, seen': map<string, nat>)
    requires i < |chunks| && Counted(seen, chunks, i)
    requires var slug := NormalizedHeading(chunks[i]); seen' == seen[slug := (if slug in seen then seen[slug] else 0) + 1]
    ensures Counted(seen', chunks, i + 1)
    ensures var slug := NormalizedHeading(chunks[i]); StableKey(chunks, i) == slug + ":" + Decimal(seen'[slug])
  {
  }

  lemma RowAppended(identities: map<Id, Identity>, identities': map<Id, Identity>, logical: Id,
                    rows: seq<Occurrence>, chunks: seq<Chunk>, i: nat, row: Occurrence)
    requires i < |chunks| && RowsFollow(identities, logical, rows, chunks, i) && Extends(identities, identities')
    requires row.identity in identities' && identities'[row.identity] == Identity(logical, StableKey(chunks, i))
    requires row.ordinal == i && row.text == chunks[i].content
    ensures RowsKnown(identities, rows) && RowsKnown(identities', rows + [row])
    ensures RowsFollow(identities', logical, rows + [row], chunks, i + 1)
    ensures ClausesOf(identities', rows + [row]) == ClausesOf(identities, rows)[StableKey(chunks, i) := row.text]
  {
    hide StableKey;
    ClausesOfStable(identities, identities', rows);
    assert (rows + [row])[..i] == rows;
  }

  lemma RememberedNext(identities: map<Id, Identity>, identities': map<Id, Identity>, logical: Id,
                       byKey: map<string, Id>, key: string, id: Id)
    requires Remembered(byKey, identities, logical) && Extends(identities, identities')
    requires id in identities' && identities'[id] == Identity(logical, key)
    ensures Remembered(byKey[key := id], identities', logical)
  {
  }

  class VersionLifecycleService {
    const judge: Judge
    var versions: map<Id, Version>
    var logicals: map<Id, Logical>
    var chunks: map<Id, seq<Chunk>>
    var identities: map<Id, Identity>
    var occurrences: map<Id, seq<Occurrence>>
    var changeSets: map<Id, ChangeSet>
    var nextId: Id

    ghost function Lib(): Library
      reads this
    {
      Library(versions, logicals, chunks, identities, occurrences, changeSets, nextId)
    }

    constructor (judge: Judge)
      ensures this.judge == judge && Lib() == EMPTY && LibraryOk(judge, Lib())
    {
      this.judge := judge;
      versions, logicals, chunks, identities := map[], map[], map[], map[];
      occurrences, changeSets, nextId := map[], map[], 0;
    }

    method VersionForDocument(document: Id) returns (found: Option<Id>)
      ensures found.None? <==> !HasVersion(Lib(), document)
      ensures found.Some? ==> found.value in versions && versions[found.value].document == document
    {
      found := None;
      if v :| v in versions && versions[v].document == document {
        found := Some(v);
      }
    }

    method MarkProcessing(document: Id)
      modifies this`versions
      ensures Marks(old(Lib()), document, {Pending}, Processing, Lib())
    {
      var found := VersionForDocument(document);
      if found.Some? && versions[found.value].status == Pending {
        versions := versions[found.value := versions[found.value].(status := Processing)];
      }
    }

    method MarkFailed(document: Id)
      modifies this`versions
      ensures Marks(old(Lib()), document, {Pending, Processing, Failed}, Failed, Lib())
    {
      var found := VersionForDocument(document);
      if found.Some? && versions[found.value].status != Promoted {
        versions := versions[found.value := versions[found.value].(status := Failed)];
      }
    }

    /** The baseline's clauses and identities by key. */
    method PriorByKey(logical: Id, baseline: Id) returns (prior: Clauses, byKey: map<string, Id>)
      requires baseline in occurrences && RowsOk(identities, logical, occurrences[baseline])
      ensures prior == ClausesOf(identities, occurrences[baseline])
      ensures Remembered(byKey, identities, logical)
    {
      var rows := occurrences[baseline];
      prior, byKey := map[], map[];
      for i := 0 to |rows|
        invariant prior == ClausesOf(identities, rows[..i])
        invariant Remembered(byKey, identities, logical)
      {
        var key := identities[rows[i].identity].key;
        assert rows[..i + 1][..i] == rows[..i];
        prior := prior[key := rows[i].text];
        byKey := byKey[key := rows[i].identity];
      }
      assert rows[..|rows|] == rows;
    }

    /** The logical document's identity for a key: remembered, stored, or created. */
    method IdentityFor(logical: Id, key: string, byKey: map<string, Id>) returns (id: Id)
      requires IdentitiesOk(identities, nextId) && Remembered(byKey, identities, logical)
      modifies this`identities, this`nextId
      ensures IdentitiesOk(identities, nextId) && Extends(old(identities), identities) && nextId >= old(nextId)
      ensures id in identities && identities[id] == Identity(logical, key)
    {
      if key in byKey {
        id := byKey[key];
      } else if stored :| stored in identities && identities[stored] == Identity(logical, key) {
        id := stored;
      } else {
        id := nextId;
        identities, nextId := identities[id := Identity(logical, key)], nextId + 1;
      }
    }

    /** Store one occurrence per chunk, numbering repeated headings. */
    method WriteOccurrences(v: Id, logical: Id, source: seq<Chunk>, known: map<string, Id>) returns (current: Clauses)
      requires IdentitiesOk(identities, nextId) && Remembered(known, identities, logical)
      modifies this`identities, this`occurrences, this`nextId
      ensures IdentitiesOk(identities, nextId) && Extends(old(identities), identities) && nextId >= old(nextId)
      ensures v in occurrences && occurrences == old(occurrences)[v := occurrences[v]]
      ensures RowsFollow(identities, logical, occurrences[v], source, |source|)
      ensures RowsKnown(identities, occurrences[v]) && current == ClausesOf(identities, occurrences[v])
    {
      hide NormalizedHeading, Counted, StableKey, RowsFollow, ClausesOf, IdentitiesOk, Remembered;
      NothingYet(identities, logical, source);
      var seen: map<string, nat> := map[];
      var byKey: map<string, Id> := known;
      current := map[];
      occurrences := occurrences[v := []];
      for i := 0 to |source|
        invariant Counted(seen, source, i)
        invariant IdentitiesOk(identities, nextId) && Extends(old(identities), identities) && nextId >= old(nextId)
        invariant Remembered(byKey, identities, logical)
        invariant v in occurrences && occurrences == old(occurrences)[v := occurrences[v]]
        invariant RowsFollow(identities, logical, occurrences[v], source, i)
        invariant RowsKnown(identities, occurrences[v]) && current == ClausesOf(identities, occurrences[v])
      {
        var base := NormalizedHeading(source[i]);
        ghost var prior := seen;
        seen := seen[base := (if base in seen then seen[base] else 0) + 1];
        var key := base + ":" + Decimal(seen[base]);
        CountedNext(source, i, prior, seen);
        ghost var before := identities;
        ghost var rows := occurrences[v];
        var id := IdentityFor(logical, key, byKey);
        var row := Occurrence(id, i, source[i].content);
        RowAppended(before, identities, logical, rows, source, i, row);
        occurrences := occurrences[v := occurrences[v] + [row]];
        current := current[key := row.text];
        RememberedNext(before, identities, logical, byKey, key, id);
        byKey := byKey[key := id];
      }
    }

    /** Analyze a document's version and make it the active one. */
    method AnalyzeAndPromote(document: Id) returns (outcome: Outcome)
      requires LibraryOk(judge, Lib())
      modifies this
      ensures Analyzes(judge, old(Lib()), document, Lib(), outcome)
      ensures LibraryOk(judge, Lib())
    {
      hide AllPromotedOk, Linear, Promotes, IdentitiesOk;
      var found := VersionForDocument(document);
      if found.None? {
        return Success(None);
      }
      var v := found.value;
      if v in changeSets {
        return Success(Some(Analysis(v, changeSets[v].classification, changeSets[v].changed, changeSets[v].requiresReview)));
      }
      if versions[v].logical !in logicals {
        return Failure(NoLogicalDocument);
      }
      var source := if document in chunks then chunks[document] else [];
      if source == [] {
        return Failure(NoSourceChunks);
      }
      ghost var before := Lib();
      var analysis := PromoteVersion(v, source);
      PromotionKeeps(judge, before, v, Lib());
      outcome := Success(Some(analysis));
      assert AnalyzesVersion(judge, before, v, Lib(), outcome);
    }

    /** The first promotion of a version with chunks. */
    method PromoteVersion(v: Id, source: seq<Chunk>) returns (analysis: Analysis)
      requires LibraryOk(judge, Lib())
      requires v in versions && versions[v].logical in logicals && v !in changeSets
      requires source == ChunksOf(Lib(), versions[v].document)
      modifies this
      ensures Promotes(judge, old(Lib()), v, Lib())
      ensures v in changeSets && analysis == AnalysisOf(Lib(), v)
    {
      hide *;
      LibIs();
      ghost var lib := Lib();
      var cs := CompareVersion(v, source);
      ghost var mid := Lib();
      LibIs();
      changeSets := changeSets[v := cs];
      versions := versions[v := versions[v].(status := Promoted, supersedes := cs.baseline)];
      logicals := logicals[versions[v].logical := Logical(Some(v))];
      analysis := Analysis(v, cs.classification, cs.changed, cs.requiresReview);
      LibIs();
      PromotionAssembled(judge, lib, mid, v, cs);
      assert Lib() == PromotedWith(mid, v, cs);
    }

    /** Write the version's occurrences and compare them with its baseline's. */
    method CompareVersion(v: Id, source: seq<Chunk>) returns (cs: ChangeSet)
      requires LibraryOk(judge, Lib())
      requires v in versions && versions[v].logical in logicals && v !in changeSets
      requires source == ChunksOf(Lib(), versions[v].document)
      modifies this`identities, this`occurrences, this`nextId
      ensures Compared(judge, old(Lib()), Lib(), v, cs)
    {
      hide *;
      LibIs();
      ghost var lib := Lib();
      PartsOf(judge, lib);
      BaselineIs(lib, v);
      var logical := versions[v].logical;
      var active := logicals[logical].active;
      var baseline := if active.Some? && active.value != v && active.value in versions then active else None;
      var prior: Clauses, byKey: map<string, Id> := map[], map[];
      if baseline.Some? {
        ActivePromoted(judge, lib, logical);
        prior, byKey := PriorByKey(logical, baseline.value);
      } else {
        NothingYet(identities, logical, source);
      }
      var current := WriteOccurrences(v, logical, source, byKey);
      if baseline.Some? {
        RowsOkKnown(lib.identities, identities, logical, lib.occurrences[baseline.value]);
      }
      cs := BuildChangeSet(judge, baseline, prior, current);
      LibIs();
      ComparedIntro(judge, lib, Lib(), v, cs, prior, current);
    }

    lemma LibIs()
      ensures Lib() == Library(versions, logicals, chunks, identities, occurrences, changeSets, nextId)
    {
    }
  }

  lemma PartsOf(judge: Judge, lib: Library)
    requires LibraryOk(judge, lib)
    ensures IdentitiesOk(lib.identities, lib.nextId)
  {
  }

  lemma BaselineIs(lib: Library, v: Id)
    requires v in lib.versions && lib.versions[v].logical in lib.logicals
    ensures var active := lib.logicals[lib.versions[v].logical].active;
            BaselineOf(lib, v) == if active.Some? && active.value != v && active.value in lib.versions then active else None
  {
  }

  /** The tables between the comparison and the promotion. */
  ghost predicate Compared(judge: Judge, lib: Library, mid: Library, v: Id, cs: ChangeSet)
    requires v in lib.versions && lib.versions[v].logical in lib.logicals
  {
    var chunks := ChunksOf(lib, lib.versions[v].document);
    var baseline := BaselineOf(lib, v);
    && mid == lib.(identities := mid.identities, occurrences := mid.occurrences, nextId := mid.nextId)
    && Extends(lib.identities, mid.identities) && IdentitiesOk(mid.identities, mid.nextId) && mid.nextId >= lib.nextId
    && v in mid.occurrences && mid.occurrences == lib.occurrences[v := mid.occurrences[v]]
    && RowsFollow(mid.identities, lib.versions[v].logical, mid.occurrences[v], chunks, |chunks|)
    && RowsKnown(mid.identities, mid.occurrences[v])
    && cs.baseline == baseline
    && (baseline.Some? ==> baseline.value in lib.occurrences && RowsKnown(mid.identities, lib.occurrences[baseline.value]))
    && var current := ClausesOf(mid.identities, mid.occurrences[v]);
       Accounts(judge, cs, if baseline.Some? then ClausesOf(mid.identities, lib.occurrences[baseline.value]) else current, current)
  }

  lemma ComparedIntro(judge: Judge, lib: Library, mid: Library, v: Id, cs: ChangeSet, prior: Clauses, current: Clauses)
    requires v in lib.versions && lib.versions[v].logical in lib.logicals
    requires mid == lib.(identities := mid.identities, occurrences := mid.occurrences, nextId := mid.nextId)
    requires Extends(lib.identities, mid.identities) && IdentitiesOk(mid.identities, mid.nextId) && mid.nextId >= lib.nextId
    requires v in mid.occurrences && mid.occurrences == lib.occurrences[v := mid.occurrences[v]]
    requires var chunks := ChunksOf(lib, lib.versions[v].document);
             RowsFollow(mid.identities, lib.versions[v].logical, mid.occurrences[v], chunks, |chunks|)
    requires RowsKnown(mid.identities, mid.occurrences[v]) && current == ClausesOf(mid.identities, mid.occurrences[v])
    requires var b := BaselineOf(lib, v);
             && cs.baseline == b
             && (b.Some? ==>
                   && b.value in lib.occurrences && RowsKnown(mid.identities, lib.occurrences[b.value])
                   && prior == ClausesOf(mid.identities, lib.occurrences[b.value]))
             && Accounts(judge, cs, if b.Some? then prior else current, current)
    ensures Compared(judge, lib, mid, v, cs)
  {
  }

  function PromotedWith(mid: Library, v: Id, cs: ChangeSet): Library
    requires v in mid.versions
  {
    mid.(changeSets := mid.changeSets[v := cs],
         versions := mid.versions[v := mid.versions[v].(status := Promoted, supersedes := cs.baseline)],
         logicals := mid.logicals[mid.versions[v].logical := Logical(Some(v))])
  }

  lemma PromotionAssembled(judge: Judge, lib: Library, mid: Library, v: Id, cs: ChangeSet)
    requires v in lib.versions && lib.versions[v].logical in lib.logicals
    requires Compared(judge, lib, mid, v, cs)
    ensures mid.versions == lib.versions
    ensures Promotes(judge, lib, v, PromotedWith(mid, v, cs))
    ensures AnalysisOf(PromotedWith(mid, v, cs), v) == Analysis(v, cs.classification, cs.changed, cs.requiresReview)
    ensures PromotedWith(mid, v, cs)
              == mid.(changeSets := mid.changeSets[v := cs],
                      versions := mid.versions[v := mid.versions[v].(status := Promoted, supersedes := cs.baseline)],
                      logicals := mid.logicals[mid.versions[v].logical := Logical(Some(v))])
  {
  }

  lemma RowsOkKnown(identities: map<Id, Identity>, identities': map<Id, Identity>, logical: Id, rows: seq<Occurrence>)
    requires RowsOk(identities, logical, rows) && Extends(identities, identities')
    ensures RowsKnown(identities', rows)
    ensures ClausesOf(identities, rows) == ClausesOf(identities', rows)
  {
  }

  /** A version compared with itself has no changes. */
  lemma SameClauses(judge: Judge, current: Clauses)
    ensures RowsList(judge, current, current, current.Keys + current.Keys, [])
    ensures AddedKeys(current, current) == {} && RemovedKeys(current, current) == {} && ModifiedKeys(judge, current, current) == {}
    ensures |UnchangedKeys(judge, current, current)| == |current|
  {
    assert UnchangedKeys(judge, current, current) == current.Keys;
  }
}
