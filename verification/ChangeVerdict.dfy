/** What a change set says of two versions, from their texts alone. */
module ChangeVerdict {
  import opened Common
  import opened ClauseKeys
  import opened VersionLifecycle
  import opened LifecycleRuns

  /** A clause that only one of the versions has, or whose text has another normal form in each. */
  predicate IsChanged(judge: Judge, prior: Clauses, current: Clauses, key: string) {
    || (key in prior && key !in current)
    || (key !in prior && key in current)
    || (key in prior && key in current && judge.normal(prior[key]) != judge.normal(current[key]))
  }

  function Changes(judge: Judge, prior: Clauses, current: Clauses): set<string> {
    set key | key in prior.Keys + current.Keys && IsChanged(judge, prior, current, key)
  }

  function TextIn(clauses: Clauses, key: string): string {
    if key in clauses then clauses[key] else ""
  }

  /** A material term stands in one of the two texts of a clause, read one after the other. */
  predicate IsMaterial(judge: Judge, prior: Clauses, current: Clauses, key: string) {
    judge.material(TextIn(prior, key) + "\n" + TextIn(current, key))
  }

  ghost predicate SomeMaterial(judge: Judge, prior: Clauses, current: Clauses) {
    exists key :: key in Changes(judge, prior, current) && IsMaterial(judge, prior, current, key)
  }

  /** The changed clauses are three quarters of the larger version, or more. */
  predicate IsMostlyNew(judge: Judge, prior: Clauses, current: Clauses) {
    4 * |Changes(judge, prior, current)| >= 3 * |prior| && 4 * |Changes(judge, prior, current)| >= 3 * |current|
  }

  /** The row of a changed clause: what happened to it, how alike its texts are, and how much it matters:
      high for a material text, else medium unless the texts are at least three quarters alike. */
  predicate IsRowFor(judge: Judge, prior: Clauses, current: Clauses, row: ChangeRow) {
    && IsChanged(judge, prior, current, row.key)
    && row.change == (if row.key !in prior then Added else if row.key !in current then Removed else Modified)
    && row.similarity == (if row.key in prior && row.key in current
                          then Some(judge.similarity(prior[row.key], current[row.key])) else None)
    && (row.materiality == High <==> IsMaterial(judge, prior, current, row.key))
    && (row.materiality == Low <==>
          && !IsMaterial(judge, prior, current, row.key)
          && row.key in prior && row.key in current
          && judge.similarity(prior[row.key], current[row.key]) >= 0.75)
  }

  lemma RowIs(judge: Judge, prior: Clauses, current: Clauses, key: string)
    requires key in prior || key in current
    ensures RowFor(judge, prior, current, key).Some? <==> IsChanged(judge, prior, current, key)
    ensures RowFor(judge, prior, current, key).Some? ==>
              var row := RowFor(judge, prior, current, key).value;
              row.key == key && IsRowFor(judge, prior, current, row)
  {
  }

  /** One row for every changed clause, and no other. */
  lemma ChangeRows(judge: Judge, cs: ChangeSet, prior: Clauses, current: Clauses)
    requires Accounts(judge, cs, prior, current)
    ensures forall i :: 0 <= i < |cs.rows| ==> IsRowFor(judge, prior, current, cs.rows[i])
    ensures forall i, j :: 0 <= i < j < |cs.rows| ==> cs.rows[i].key != cs.rows[j].key
    ensures forall key :: key in Changes(judge, prior, current) ==> exists i :: 0 <= i < |cs.rows| && cs.rows[i].key == key
    ensures |cs.rows| == cs.changed == |Changes(judge, prior, current)|
  {
    hide RowFor, IsRowFor, IsChanged, Classify, RequiresReview;
    var rows := cs.rows;
    forall i | 0 <= i < |rows|
      ensures IsRowFor(judge, prior, current, rows[i]) && rows[i].key in Changes(judge, prior, current)
    {
      RowIs(judge, prior, current, rows[i].key);
    }
    forall key | key in Changes(judge, prior, current)
      ensures exists i :: 0 <= i < |rows| && rows[i].key == key
    {
      RowIs(judge, prior, current, key);
      var row := RowFor(judge, prior, current, key).value;
      assert row in rows;
    }
    KeysAreRows(rows, |rows|);
    assert (set i | 0 <= i < |rows| :: rows[i].key) == Changes(judge, prior, current);
  }

  lemma HighMeansMaterial(judge: Judge, cs: ChangeSet, prior: Clauses, current: Clauses)
    requires Accounts(judge, cs, prior, current)
    ensures HighCount(cs.rows) > 0 <==> SomeMaterial(judge, prior, current)
  {
    hide IsChanged, Accounts, IsMaterial, HighCount;
    ChangeRows(judge, cs, prior, current);
    if HighCount(cs.rows) > 0 {
      var i :| 0 <= i < |cs.rows| && cs.rows[i].materiality.High?;
      InChanges(judge, prior, current, cs.rows[i].key);
    }
    if SomeMaterial(judge, prior, current) {
      var key :| key in Changes(judge, prior, current) && IsMaterial(judge, prior, current, key);
      var i :| 0 <= i < |cs.rows| && cs.rows[i].key == key;
      assert IsRowFor(judge, prior, current, cs.rows[i]);
    }
  }

  lemma InChanges(judge: Judge, prior: Clauses, current: Clauses, key: string)
    requires IsChanged(judge, prior, current, key)
    ensures key in Changes(judge, prior, current)
  {
  }

  lemma MostlyNewIs(judge: Judge, prior: Clauses, current: Clauses)
    requires Changes(judge, prior, current) != {}
    ensures IsReplacement(|Changes(judge, prior, current)|, |prior|, |current|) <==> IsMostlyNew(judge, prior, current)
  {
    hide IsChanged;
    var key :| key in Changes(judge, prior, current);
    assert key in prior.Keys || key in current.Keys;
    assert |prior.Keys| == |prior| && |current.Keys| == |current|;
    assert |prior| > 0 || |current| > 0 by {
      if key in prior.Keys { assert prior != map[]; } else { assert current != map[]; }
    }
  }

  /** The verdict on two versions. Review is needed exactly when some clause changed and the changed ones
      are most of the document or one of them is material; the classification is the first that fits. */
  lemma Verdict(judge: Judge, cs: ChangeSet, prior: Clauses, current: Clauses)
    requires Accounts(judge, cs, prior, current) && (cs.baseline.None? ==> prior == current)
    ensures cs.requiresReview <==>
              && Changes(judge, prior, current) != {}
              && (IsMostlyNew(judge, prior, current) || SomeMaterial(judge, prior, current))
    ensures cs.classification ==
              if cs.baseline == None then InitialVersion
              else if Changes(judge, prior, current) == {} then FormattingOrNoop
              else if IsMostlyNew(judge, prior, current) then WholeDocumentReplacement
              else if SomeMaterial(judge, prior, current) then MaterialClauseChange
              else MinorWording
  {
    hide IsChanged, IsMostlyNew, SomeMaterial, IsReplacement, RowsList, HighCount;
    ChangeRows(judge, cs, prior, current);
    HighMeansMaterial(judge, cs, prior, current);
    NothingChanged(judge, current);
    if Changes(judge, prior, current) != {} {
      MostlyNewIs(judge, prior, current);
    }
  }

  lemma NothingChanged(judge: Judge, current: Clauses)
    ensures Changes(judge, current, current) == {}
  {
  }

  /** The clauses of a version that is stored: the texts of its rows under their keys. */
  lemma ClausesAre(identities: map<Id, Identity>, logical: Id, rows: seq<Occurrence>)
    requires RowsOk(identities, logical, rows)
    ensures var clauses := ClausesOf(identities, rows);
            && |clauses| == |rows|
            && forall i :: 0 <= i < |rows| ==>
                 && identities[rows[i].identity].key in clauses
                 && clauses[identities[rows[i].identity].key] == rows[i].text
  {
    OneClausePerRow(identities, logical, rows);
    ClausesEntries(identities, logical, rows);
  }

  lemma {:induction false} ClausesEntries(identities: map<Id, Identity>, logical: Id, rows: seq<Occurrence>)
    requires RowsOk(identities, logical, rows)
    ensures forall i :: 0 <= i < |rows| ==>
              && identities[rows[i].identity].key in ClausesOf(identities, rows)
              && ClausesOf(identities, rows)[identities[rows[i].identity].key] == rows[i].text
  {
    if rows != [] {
      var init := rows[..|rows| - 1];
      ClausesEntries(identities, logical, init);
      assert forall i :: 0 <= i < |init| ==> rows[i] == init[i];
    }
  }

  /** In every consistent library a promoted version's stored verdict is that on its own clauses and
      those of the version it superseded. */
  lemma StoredVerdict(judge: Judge, lib: Library, v: Id)
    requires LibraryOk(judge, lib) && v in lib.changeSets
    ensures v in lib.versions && v in lib.occurrences && RowsKnown(lib.identities, lib.occurrences[v])
    ensures var cs := lib.changeSets[v];
            var current := ClausesOf(lib.identities, lib.occurrences[v]);
            && (cs.baseline.Some? ==>
                  cs.baseline.value in lib.occurrences && RowsKnown(lib.identities, lib.occurrences[cs.baseline.value]))
            && var prior := if cs.baseline.Some? then ClausesOf(lib.identities, lib.occurrences[cs.baseline.value]) else current;
               && cs.baseline == lib.versions[v].supersedes
               && cs.changed == |Changes(judge, prior, current)|
               && (cs.requiresReview <==>
                     && Changes(judge, prior, current) != {}
                     && (IsMostlyNew(judge, prior, current) || SomeMaterial(judge, prior, current)))
               && cs.classification ==
                    (if cs.baseline == None then InitialVersion
                     else if Changes(judge, prior, current) == {} then FormattingOrNoop
                     else if IsMostlyNew(judge, prior, current) then WholeDocumentReplacement
                     else if SomeMaterial(judge, prior, current) then MaterialClauseChange
                     else MinorWording)
               && forall i :: 0 <= i < |cs.rows| ==> IsRowFor(judge, prior, current, cs.rows[i])
  {
    hide IsRowFor, Accounts, Changes, IsMostlyNew, SomeMaterial, ClausesOf, IdentitiesOk, Linear;
    assert PromotedOk(judge, lib, v);
    var cs := lib.changeSets[v];
    var current := ClausesOf(lib.identities, lib.occurrences[v]);
    var prior := if cs.baseline.Some? then ClausesOf(lib.identities, lib.occurrences[cs.baseline.value]) else current;
    ChangeRows(judge, cs, prior, current);
    Verdict(judge, cs, prior, current);
  }

  // The calls

  /** What asking for a promotion gives. A document has one version in a consistent library. Without one
      nothing happens; promoted before, its stored result is given again; without chunks it is refused;
      and each of these leaves the library as it was. */
  lemma PromotionAnswers(judge: Judge, lib: Library, document: Id, lib': Library, outcome: Outcome)
    requires LibraryOk(judge, lib) && Analyzes(judge, lib, document, lib', outcome)
    ensures (forall v :: v in lib.versions ==> lib.versions[v].document != document) ==>
              outcome == Success(None) && lib' == lib
    ensures forall v :: v in lib.versions && lib.versions[v].document == document ==>
              if v in lib.changeSets then
                && lib' == lib
                && outcome == Success(Some(Analysis(v, lib.changeSets[v].classification, lib.changeSets[v].changed,
                                                    lib.changeSets[v].requiresReview)))
              else if document !in lib.chunks || lib.chunks[document] == [] then
                outcome == Failure(NoSourceChunks) && lib' == lib
              else
                && IsPromoted(lib, v, lib.chunks[document], lib')
                && outcome == Success(Some(Analysis(v, lib'.changeSets[v].classification, lib'.changeSets[v].changed,
                                                    lib'.changeSets[v].requiresReview)))
  {
    hide Accounts, IdentitiesOk, AllPromotedOk, Linear, ClausesOf, StableKey;
    if HasVersion(lib, document) {
      var w :| w in lib.versions && lib.versions[w].document == document && AnalyzesVersion(judge, lib, w, lib', outcome);
      assert forall v :: v in lib.versions && lib.versions[v].document == document ==> v == w;
    }
  }

  /** A promotion: the version is promoted over the one that was active, which it supersedes, and is active
      itself; it has one row for each chunk, with the text and the number of the chunk. */
  ghost predicate IsPromoted(lib: Library, v: Id, chunks: seq<Chunk>, lib': Library) {
    && v in lib.versions && v in lib'.versions && v in lib'.occurrences && v in lib'.changeSets
    && lib.versions[v].logical in lib.logicals
    && var logical, active := lib.versions[v].logical, lib.logicals[lib.versions[v].logical].active;
       var other := active.Some? && active.value != v && active.value in lib.versions;
       && lib'.versions == lib.versions[v := Version(logical, lib.versions[v].document, Promoted, if other then active else None)]
       && lib'.logicals == lib.logicals[logical := Logical(Some(v))]
       && lib'.chunks == lib.chunks
       && lib'.changeSets == lib.changeSets[v := lib'.changeSets[v]]
       && lib'.occurrences == lib.occurrences[v := lib'.occurrences[v]]
       && |lib'.occurrences[v]| == |chunks|
       && forall i :: 0 <= i < |chunks| ==>
            && lib'.occurrences[v][i].text == chunks[i].content && lib'.occurrences[v][i].ordinal == i
            && lib'.occurrences[v][i].identity in lib'.identities
            && lib'.identities[lib'.occurrences[v][i].identity] == Identity(logical, StableKey(chunks, i))
  }

  /** A version is marked as processing only while it is pending, and as failed unless it is promoted. */
  lemma MarkAnswers(judge: Judge, lib: Library, document: Id, lib': Library, outcome: Outcome, v: Id)
    requires v in lib.versions && lib.versions[v].document == document
    requires forall w :: w in lib.versions && lib.versions[w].document == document ==> w == v
    ensures Next(judge, lib, Call.MarkProcessing(document), lib', outcome) ==>
              lib' == if lib.versions[v].status == Pending
                      then lib.(versions := lib.versions[v := lib.versions[v].(status := Processing)]) else lib
    ensures Next(judge, lib, Call.MarkFailed(document), lib', outcome) ==>
              lib' == if lib.versions[v].status != Promoted
                      then lib.(versions := lib.versions[v := lib.versions[v].(status := Failed)]) else lib
  {
    assert HasVersion(lib, document);
  }
}
