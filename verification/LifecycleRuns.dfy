/** Runs of the lifecycle: what each call may do to the tables, and what holds along every run. */
module LifecycleRuns {
  import opened Common
  import opened ClauseKeys
  import opened VersionLifecycle

  datatype Call =
    | NewLogical
    | NewVersion(logical: Id, document: Id)
    | StoreChunks(document: Id, chunks: seq<Chunk>)
    | MarkProcessing(document: Id)
    | MarkFailed(document: Id)
    | Promote(document: Id)

  type Outcome = Result<Option<Analysis>, LifecycleError>

  const EMPTY := Library(map[], map[], map[], map[], map[], map[], 0)

  predicate HasVersion(lib: Library, document: Id) {
    exists v :: v in lib.versions && lib.versions[v].document == document
  }

  function ChunksOf(lib: Library, document: Id): seq<Chunk> {
    if document in lib.chunks then lib.chunks[document] else []
  }

  /** The version a new one is compared with: the active one, unless that is the version itself. */
  function BaselineOf(lib: Library, v: Id): Option<Id>
    requires v in lib.versions && lib.versions[v].logical in lib.logicals
  {
    var active := lib.logicals[lib.versions[v].logical].active;
    if active.Some? && active.value != v && active.value in lib.versions then active else None
  }

  function AnalysisOf(lib: Library, v: Id): Analysis
    requires v in lib.changeSets
  {
    var cs := lib.changeSets[v];
    Analysis(v, cs.classification, cs.changed, cs.requiresReview)
  }

  /** What a first promotion of version `v` does: its rows and its change set are stored, it is
      promoted over its baseline and made active; nothing else changes. */
  ghost predicate Promotes(judge: Judge, lib: Library, v: Id, lib': Library)
    requires v in lib.versions && lib.versions[v].logical in lib.logicals
  {
    var version := lib.versions[v];
    var chunks := ChunksOf(lib, version.document);
    var baseline := BaselineOf(lib, v);
    && lib'.versions == lib.versions[v := version.(status := Promoted, supersedes := baseline)]
    && lib'.logicals == lib.logicals[version.logical := Logical(Some(v))]
    && lib'.chunks == lib.chunks
    && Extends(lib.identities, lib'.identities)
    && IdentitiesOk(lib'.identities, lib'.nextId)
    && lib'.nextId >= lib.nextId
    && v in lib'.occurrences && lib'.occurrences == lib.occurrences[v := lib'.occurrences[v]]
    && RowsFollow(lib'.identities, version.logical, lib'.occurrences[v], chunks, |chunks|)
    && v in lib'.changeSets && lib'.changeSets == lib.changeSets[v := lib'.changeSets[v]]
    && lib'.changeSets[v].baseline == baseline
    && (baseline.Some? ==> baseline.value in lib.occurrences && RowsKnown(lib'.identities, lib.occurrences[baseline.value]))
    && var current := ClausesOf(lib'.identities, lib'.occurrences[v]);
       Accounts(judge, lib'.changeSets[v],
                if baseline.Some? then ClausesOf(lib'.identities, lib.occurrences[baseline.value]) else current, current)
  }

  /** `analyze_and_promote` with its early returns and errors. */
  ghost predicate Analyzes(judge: Judge, lib: Library, document: Id, lib': Library, outcome: Outcome) {
    if !HasVersion(lib, document) then outcome == Success(None) && lib' == lib
    else
      exists v :: v in lib.versions && lib.versions[v].document == document && AnalyzesVersion(judge, lib, v, lib', outcome)
  }

  ghost predicate AnalyzesVersion(judge: Judge, lib: Library, v: Id, lib': Library, outcome: Outcome)
    requires v in lib.versions
  {
    if v in lib.changeSets then outcome == Success(Some(AnalysisOf(lib, v))) && lib' == lib
    else if lib.versions[v].logical !in lib.logicals then outcome == Failure(NoLogicalDocument) && lib' == lib
    else if ChunksOf(lib, lib.versions[v].document) == [] then outcome == Failure(NoSourceChunks) && lib' == lib
    else Promotes(judge, lib, v, lib') && outcome == Success(Some(AnalysisOf(lib', v)))
  }

  /** `mark_processing` and `mark_failed`: the status of the document's version, in the states they
      act on. */
  function Marked(lib: Library, v: Id, status: VersionStatus): Library
    requires v in lib.versions
  {
    lib.(versions := lib.versions[v := lib.versions[v].(status := status)])
  }

  ghost predicate Marks(lib: Library, document: Id, from: set<VersionStatus>, status: VersionStatus, lib': Library) {
    if !HasVersion(lib, document) then lib' == lib
    else
      exists v ::
        && v in lib.versions && lib.versions[v].document == document
        && lib' == if lib.versions[v].status in from then Marked(lib, v, status) else lib
  }

  /** One call: the outcome matters for `Promote` only. */
  ghost predicate Next(judge: Judge, lib: Library, call: Call, lib': Library, outcome: Outcome) {
    match call
    case NewLogical => lib' == lib.(logicals := lib.logicals[lib.nextId := Logical(None)], nextId := lib.nextId + 1)
    case NewVersion(logical, document) =>
      if logical in lib.logicals && !HasVersion(lib, document) then
        lib' == lib.(versions := lib.versions[lib.nextId := Version(logical, document, Pending, None)], nextId := lib.nextId + 1)
      else lib' == lib
    case StoreChunks(document, chunks) => lib' == lib.(chunks := lib.chunks[document := chunks])
    case MarkProcessing(document) => Marks(lib, document, {Pending}, Processing, lib')
    case MarkFailed(document) => Marks(lib, document, {Pending, Processing, Failed}, Failed, lib')
    case Promote(document) => Analyzes(judge, lib, document, lib', outcome)
  }

  // Preservation

  lemma HistoryKeptElsewhere(lib: Library, lib': Library, l: Id, h: seq<Id>)
    requires IsHistory(lib, l, h)
    requires l in lib'.logicals && lib'.logicals[l] == lib.logicals[l]
    requires forall v :: v in lib'.versions && lib'.versions[v].logical == l && lib'.versions[v].status.Promoted? ==>
               v in lib.versions && lib'.versions[v] == lib.versions[v]
    requires forall v :: v in lib.versions && lib.versions[v].status.Promoted? ==> v in lib'.versions && lib'.versions[v] == lib.versions[v]
    ensures IsHistory(lib', l, h)
  {
  }

  lemma PromotedKept(judge: Judge, lib: Library, lib': Library, w: Id)
    requires w in lib.versions && w in lib.changeSets && PromotedOk(judge, lib, w)
    requires Extends(lib.identities, lib'.identities)
    requires w in lib'.versions && lib'.versions[w] == lib.versions[w]
    requires w in lib'.changeSets && lib'.changeSets[w] == lib.changeSets[w]
    requires w in lib'.occurrences && lib'.occurrences[w] == lib.occurrences[w]
    requires var b := lib.changeSets[w].baseline;
             b.Some? ==> && b.value in lib'.occurrences && lib'.occurrences[b.value] == lib.occurrences[b.value]
                         && b.value in lib'.versions && lib'.versions[b.value].logical == lib.versions[b.value].logical
    ensures PromotedOk(judge, lib', w)
  {
    hide Accounts;
    ClausesOfStable(lib.identities, lib'.identities, lib.occurrences[w]);
    if lib.changeSets[w].baseline.Some? {
      ClausesOfStable(lib.identities, lib'.identities, lib.occurrences[lib.changeSets[w].baseline.value]);
    }
  }

  /** Changes that leave promoted versions, their rows and the active versions alone keep the library
      consistent. */
  lemma QuietKeeps(judge: Judge, lib: Library, lib': Library)
    requires LibraryOk(judge, lib) && VersionsOk(lib')
    requires forall l :: l in lib'.logicals ==> l < lib'.nextId
    requires lib'.nextId >= lib.nextId
    requires lib'.identities == lib.identities && lib'.occurrences == lib.occurrences && lib'.changeSets == lib.changeSets
    requires forall l :: l in lib.logicals ==> l in lib'.logicals && lib'.logicals[l] == lib.logicals[l]
    requires forall l :: l in lib'.logicals && l !in lib.logicals ==> lib'.logicals[l] == Logical(None) && l >= lib.nextId
    requires forall v :: v in lib.versions ==>
               v in lib'.versions && lib'.versions[v] == lib.versions[v].(status := lib'.versions[v].status)
    requires forall v :: v in lib'.versions && v !in lib.versions ==> !lib'.versions[v].status.Promoted?
    ensures LibraryOk(judge, lib')
  {
    hide PromotedOk, IsHistory;
    forall v | v in lib'.changeSets
      ensures PromotedOk(judge, lib', v)
    {
      QuietPromoted(judge, lib, lib', v);
    }
    forall l | l in lib'.logicals
      ensures exists h :: IsHistory(lib', l, h)
    {
      if l in lib.logicals {
        var h :| IsHistory(lib, l, h);
        HistoryKeptElsewhere(lib, lib', l, h);
      } else {
        EmptyHistory(lib', l);
      }
    }
  }

  lemma QuietPromoted(judge: Judge, lib: Library, lib': Library, w: Id)
    requires VersionsOk(lib) && VersionsOk(lib') && AllPromotedOk(judge, lib)
    requires lib'.identities == lib.identities && lib'.occurrences == lib.occurrences && lib'.changeSets == lib.changeSets
    requires forall v :: v in lib.versions ==>
               v in lib'.versions && lib'.versions[v] == lib.versions[v].(status := lib'.versions[v].status)
    requires w in lib.changeSets
    ensures PromotedOk(judge, lib', w)
  {
  }

  lemma EmptyHistory(lib: Library, l: Id)
    requires l in lib.logicals && lib.logicals[l] == Logical(None)
    requires forall v :: v in lib.versions && lib.versions[v].logical == l ==> !lib.versions[v].status.Promoted?
    ensures IsHistory(lib, l, [])
  {
  }

  lemma MarksKeeps(judge: Judge, lib: Library, document: Id, from: set<VersionStatus>, status: VersionStatus,
                   lib': Library)
    requires LibraryOk(judge, lib) && Marks(lib, document, from, status, lib')
    requires Promoted !in from && !status.Promoted?
    ensures LibraryOk(judge, lib')
  {
    hide AllPromotedOk, Linear, IdentitiesOk;
    if lib' != lib {
      QuietKeeps(judge, lib, lib');
    }
  }

  /** A promotion appends the version to its logical document's history. */
  lemma PromotionExtendsHistory(judge: Judge, lib: Library, v: Id, lib': Library, h: seq<Id>)
    requires VersionsOk(lib) && v in lib.versions && v !in lib.changeSets
    requires lib.versions[v].logical in lib.logicals && Promotes(judge, lib, v, lib')
    requires IsHistory(lib, lib.versions[v].logical, h)
    ensures IsHistory(lib', lib.versions[v].logical, h + [v])
  {
    hide Accounts, RowsFollow, IdentitiesOk, Extends, ClausesOf, RowsKnown;
    if h != [] {
      assert h[|h| - 1] in h;
    }
    AppendHistory(lib, lib', lib.versions[v].logical, h, v);
  }

  lemma AppendHistory(lib: Library, lib': Library, l: Id, h: seq<Id>, v: Id)
    requires IsHistory(lib, l, h) && v in lib.versions && !lib.versions[v].status.Promoted? && v in lib'.versions
    requires lib'.versions == lib.versions[v := lib'.versions[v]] && lib'.logicals == lib.logicals[l := Logical(Some(v))]
    requires var version := lib'.versions[v];
             version.logical == l && version.status.Promoted? && version.supersedes == lib.logicals[l].active
    ensures IsHistory(lib', l, h + [v])
  {
    assert v !in h;
    var h' := h + [v];
    assert forall w :: w in h' <==> w in h || w == v;
  }

  lemma PromotionKeepsOthers(judge: Judge, lib: Library, v: Id, lib': Library, w: Id)
    requires VersionsOk(lib) && AllPromotedOk(judge, lib)
    requires v in lib.versions && v !in lib.changeSets
    requires lib.versions[v].logical in lib.logicals && Promotes(judge, lib, v, lib')
    requires w in lib.changeSets && BaselineNot(lib, w, v)
    ensures VersionsOk(lib') && PromotedOk(judge, lib', w)
  {
    hide Accounts, RowsFollow, IdentitiesOk, Extends, ClausesOf, RowsKnown, RowsOk;
    assert PromotedOk(judge, lib, w);
    PromotedKept(judge, lib, lib', w);
  }

  predicate BaselineNot(lib: Library, w: Id, v: Id)
    requires w in lib.changeSets
  {
    lib.changeSets[w].baseline != Some(v)
  }

  /** A version's baseline was promoted before it. */
  lemma BaselinePromoted(judge: Judge, lib: Library, w: Id)
    requires LibraryOk(judge, lib) && w in lib.changeSets
    ensures var b := lib.versions[w].supersedes; b.Some? ==> b.value in lib.changeSets
    ensures lib.changeSets[w].baseline == lib.versions[w].supersedes
  {
    hide Accounts, RowsOk, RowsKnown, ClausesOf;
    assert PromotedOk(judge, lib, w);
    var h :| IsHistory(lib, lib.versions[w].logical, h);
    assert w in h;
    var i :| 0 <= i < |h| && h[i] == w;
    if i > 0 {
      assert h[i - 1] in h;
    }
  }

  lemma ActivePromoted(judge: Judge, lib: Library, l: Id)
    requires LibraryOk(judge, lib) && l in lib.logicals && lib.logicals[l].active.Some?
    ensures var a := lib.logicals[l].active.value;
            && a in lib.versions && a in lib.changeSets && lib.versions[a].logical == l
            && a in lib.occurrences && RowsOk(lib.identities, l, lib.occurrences[a])
  {
    hide Accounts, RowsOk, RowsKnown, ClausesOf;
    var h :| IsHistory(lib, l, h);
    assert h[|h| - 1] in h;
    assert PromotedOk(judge, lib, lib.logicals[l].active.value);
  }

  lemma RowsOkStable(identities: map<Id, Identity>, identities': map<Id, Identity>, logical: Id, rows: seq<Occurrence>)
    requires RowsOk(identities, logical, rows) && Extends(identities, identities')
    ensures RowsOk(identities', logical, rows)
  {
  }

  lemma PromotionIsOk(judge: Judge, lib: Library, v: Id, lib': Library)
    requires LibraryOk(judge, lib) && v in lib.versions && v !in lib.changeSets
    requires lib.versions[v].logical in lib.logicals && Promotes(judge, lib, v, lib')
    ensures VersionsOk(lib') && PromotedOk(judge, lib', v)
  {
    hide Accounts, RowsFollow, IdentitiesOk, Extends, ClausesOf, RowsKnown, RowsOk, AllPromotedOk, Linear;
    var version := lib.versions[v];
    var chunks := ChunksOf(lib, version.document);
    FollowingRowsOk(lib'.identities, version.logical, lib'.occurrences[v], chunks, |chunks|);
    if BaselineOf(lib, v).Some? {
      ActivePromoted(judge, lib, version.logical);
      RowsOkStable(lib.identities, lib'.identities, version.logical, lib.occurrences[BaselineOf(lib, v).value]);
    }
  }

  lemma PromotionKeeps(judge: Judge, lib: Library, v: Id, lib': Library)
    requires LibraryOk(judge, lib) && v in lib.versions && v !in lib.changeSets
    requires lib.versions[v].logical in lib.logicals && Promotes(judge, lib, v, lib')
    ensures LibraryOk(judge, lib')
  {
    hide Accounts, RowsFollow, IdentitiesOk, Extends, ClausesOf, RowsKnown, PromotedOk, Linear, BaselineOf, ChunksOf;
    PromotionIsOk(judge, lib, v, lib');
    forall w | w in lib'.changeSets
      ensures PromotedOk(judge, lib', w)
    {
      if w != v {
        BaselinePromoted(judge, lib, w);
        PromotionKeepsOthers(judge, lib, v, lib', w);
      }
    }
    PromotionKeepsLinear(judge, lib, v, lib');
  }

  lemma PromotionKeepsLinear(judge: Judge, lib: Library, v: Id, lib': Library)
    requires VersionsOk(lib) && Linear(lib) && v in lib.versions && v !in lib.changeSets
    requires lib.versions[v].logical in lib.logicals && Promotes(judge, lib, v, lib')
    ensures Linear(lib')
  {
    hide Accounts, RowsFollow, IdentitiesOk, Extends, ClausesOf, RowsKnown, IsHistory, BaselineOf, ChunksOf;
    forall l | l in lib'.logicals
      ensures exists h :: IsHistory(lib', l, h)
    {
      var h :| IsHistory(lib, l, h);
      if l == lib.versions[v].logical {
        PromotionExtendsHistory(judge, lib, v, lib', h);
      } else {
        HistoryKeptElsewhere(lib, lib', l, h);
      }
    }
  }

  lemma AnalyzesKeeps(judge: Judge, lib: Library, document: Id, lib': Library, outcome: Outcome)
    requires LibraryOk(judge, lib) && Analyzes(judge, lib, document, lib', outcome)
    ensures LibraryOk(judge, lib')
  {
    hide Promotes, VersionsOk, IdentitiesOk, AllPromotedOk, Linear;
    if lib' != lib {
      var v :| v in lib.versions && lib.versions[v].document == document && AnalyzesVersion(judge, lib, v, lib', outcome);
      PromotionKeeps(judge, lib, v, lib');
    }
  }

  /** Every call keeps the library consistent. */
  lemma NextKeeps(judge: Judge, lib: Library, call: Call, lib': Library, outcome: Outcome)
    requires LibraryOk(judge, lib) && Next(judge, lib, call, lib', outcome)
    ensures LibraryOk(judge, lib')
  {
    hide AllPromotedOk, Linear, IdentitiesOk, AnalyzesVersion, Marks;
    match call
    case MarkProcessing(document) => MarksKeeps(judge, lib, document, {Pending}, Processing, lib');
    case MarkFailed(document) => MarksKeeps(judge, lib, document, {Pending, Processing, Failed}, Failed, lib');
    case Promote(document) => AnalyzesKeeps(judge, lib, document, lib', outcome);
    case StoreChunks(_, _) => QuietKeeps(judge, lib, lib');
    case _ => StartKeeps(judge, lib, call, lib', outcome);
  }

  lemma StartKeeps(judge: Judge, lib: Library, call: Call, lib': Library, outcome: Outcome)
    requires LibraryOk(judge, lib) && Next(judge, lib, call, lib', outcome)
    requires call.NewLogical? || call.NewVersion?
    ensures LibraryOk(judge, lib')
  {
    hide AllPromotedOk, Linear, IdentitiesOk;
    if lib' != lib {
      QuietKeeps(judge, lib, lib');
    }
  }

  // Runs

  /** A run from the empty library. */
  ghost predicate IsRun(judge: Judge, states: seq<Library>, calls: seq<Call>, outcomes: seq<Outcome>) {
    && |states| == |calls| + 1 && |outcomes| == |calls|
    && states[0] == EMPTY
    && forall i :: 0 <= i < |calls| ==> Next(judge, states[i], calls[i], states[i + 1], outcomes[i])
  }

  lemma {:induction false} RunOk(judge: Judge, states: seq<Library>, calls: seq<Call>, outcomes: seq<Outcome>, n: nat)
    requires IsRun(judge, states, calls, outcomes) && n < |states|
    ensures LibraryOk(judge, states[n])
  {
    hide Next;
    if n == 0 {
      assert LibraryOk(judge, EMPTY);
    } else {
      RunOk(judge, states, calls, outcomes, n - 1);
      hide LibraryOk;
      NextKeeps(judge, states[n - 1], calls[n - 1], states[n], outcomes[n - 1]);
    }
  }

  /** What one call may not undo: promoted versions stay promoted over the same version, with the
      same rows and the same change set. */
  ghost predicate Keeps(lib: Library, lib': Library) {
    && (forall v :: v in lib.versions && lib.versions[v].status.Promoted? ==> v in lib'.versions && lib'.versions[v] == lib.versions[v])
    && (forall v :: v in lib.versions ==>
          v in lib'.versions && lib'.versions[v].document == lib.versions[v].document && lib'.versions[v].logical == lib.versions[v].logical)
    && (forall v :: v in lib.changeSets ==>
          && v in lib'.changeSets && lib'.changeSets[v] == lib.changeSets[v]
          && (v in lib.occurrences ==> v in lib'.occurrences && lib'.occurrences[v] == lib.occurrences[v]))
  }

  lemma NextKeepsPromoted(judge: Judge, lib: Library, call: Call, lib': Library, outcome: Outcome)
    requires VersionsOk(lib) && Next(judge, lib, call, lib', outcome)
    ensures Keeps(lib, lib')
  {
    hide Promotes, HasVersion, BaselineOf, ChunksOf, AnalysisOf, Marks, Keeps, VersionsOk;
    match call
    case Promote(document) =>
      if lib' != lib {
        var v :| v in lib.versions && lib.versions[v].document == document && AnalyzesVersion(judge, lib, v, lib', outcome);
        PromotionKeepsPromoted(judge, lib, v, lib');
      } else {
        KeepsSelf(lib);
      }
    case MarkProcessing(document) => MarksKeepPromoted(lib, document, {Pending}, Processing, lib');
    case MarkFailed(document) => MarksKeepPromoted(lib, document, {Pending, Processing, Failed}, Failed, lib');
    case _ => StartKeepsPromoted(judge, lib, call, lib', outcome);
  }

  lemma KeepsSelf(lib: Library)
    ensures Keeps(lib, lib)
  {
  }

  lemma MarksKeepPromoted(lib: Library, document: Id, from: set<VersionStatus>, status: VersionStatus, lib': Library)
    requires Marks(lib, document, from, status, lib') && Promoted !in from
    ensures Keeps(lib, lib')
  {
  }

  lemma StartKeepsPromoted(judge: Judge, lib: Library, call: Call, lib': Library, outcome: Outcome)
    requires VersionsOk(lib) && Next(judge, lib, call, lib', outcome)
    requires call.NewLogical? || call.NewVersion? || call.StoreChunks?
    ensures Keeps(lib, lib')
  {
    hide HasVersion;
  }

  lemma PromotionKeepsPromoted(judge: Judge, lib: Library, v: Id, lib': Library)
    requires VersionsOk(lib) && v in lib.versions && v !in lib.changeSets
    requires lib.versions[v].logical in lib.logicals && Promotes(judge, lib, v, lib')
    ensures Keeps(lib, lib')
  {
    hide Accounts, RowsFollow, IdentitiesOk, Extends, ClausesOf, RowsKnown, BaselineOf, ChunksOf;
  }

  lemma {:induction false} RunKeeps(judge: Judge, states: seq<Library>, calls: seq<Call>, outcomes: seq<Outcome>,
                                    m: nat, n: nat)
    requires IsRun(judge, states, calls, outcomes) && m <= n < |states|
    ensures Keeps(states[m], states[n])
    decreases n
  {
    hide Next, PromotedOk;
    if m < n {
      RunKeeps(judge, states, calls, outcomes, m, n - 1);
      RunOk(judge, states, calls, outcomes, n - 1);
      NextKeepsPromoted(judge, states[n - 1], calls[n - 1], states[n], outcomes[n - 1]);
      KeepsTrans(states[m], states[n - 1], states[n]);
    }
  }

  lemma KeepsTrans(a: Library, b: Library, c: Library)
    requires Keeps(a, b) && Keeps(b, c)
    ensures Keeps(a, c)
  {
  }

  /** A repeated promotion is a no-op: once a document's version was promoted with some analysis, every
      later call for that document, after any other calls, returns the same analysis and changes
      nothing. */
  lemma RepeatedPromotion(judge: Judge, states: seq<Library>, calls: seq<Call>, outcomes: seq<Outcome>, m: nat,
                          n: nat, document: Id, a: Analysis)
    requires IsRun(judge, states, calls, outcomes) && m < n < |calls|
    requires calls[m] == Promote(document) && outcomes[m] == Success(Some(a))
    requires calls[n] == Promote(document)
    ensures states[n + 1] == states[n] && outcomes[n] == Success(Some(a))
  {
    hide Promotes, Marks, IdentitiesOk, AllPromotedOk, Linear;
    RunOk(judge, states, calls, outcomes, m);
    RunOk(judge, states, calls, outcomes, n);
    RunKeeps(judge, states, calls, outcomes, m, n);
    RunKeeps(judge, states, calls, outcomes, m, m + 1);
    RunKeeps(judge, states, calls, outcomes, m + 1, n);
    assert Next(judge, states[m], calls[m], states[m + 1], outcomes[m]);
    assert Next(judge, states[n], calls[n], states[n + 1], outcomes[n]);
    var v := FirstAnalysis(judge, states[m], document, states[m + 1], outcomes[m], a);
    assert HasVersion(states[n], document);
    var w :| w in states[n].versions && states[n].versions[w].document == document
             && AnalyzesVersion(judge, states[n], w, states[n + 1], outcomes[n]);
    assert w == v;
  }

  /** A successful analysis is the stored change set's. */
  lemma FirstAnalysis(judge: Judge, lib: Library, document: Id, lib': Library, outcome: Outcome,
                      a: Analysis) returns (v: Id)
    requires Analyzes(judge, lib, document, lib', outcome) && outcome == Success(Some(a))
    ensures v in lib.versions && lib.versions[v].document == document
    ensures v in lib'.changeSets && a == AnalysisOf(lib', v)
  {
    hide Accounts, RowsFollow, IdentitiesOk, Extends, ClausesOf, RowsKnown;
    v :| v in lib.versions && lib.versions[v].document == document && AnalyzesVersion(judge, lib, v, lib', outcome);
  }

  /** Along a run a logical document's history only grows. */
  lemma HistoryGrows(judge: Judge, states: seq<Library>, calls: seq<Call>, outcomes: seq<Outcome>, m: nat, n: nat,
                     l: Id, h: seq<Id>, k: seq<Id>)
    requires IsRun(judge, states, calls, outcomes) && m <= n < |states|
    requires IsHistory(states[m], l, h) && IsHistory(states[n], l, k)
    ensures h <= k
  {
    hide Next;
    RunKeeps(judge, states, calls, outcomes, m, n);
    PrefixOf(states[m], states[n], l, h, k, |h|);
  }

  lemma Predecessor(lib: Library, l: Id, h: seq<Id>, i: nat)
    requires IsHistory(lib, l, h) && i < |h|
    ensures lib.versions[h[i]].supersedes == if i == 0 then None else Some(h[i - 1])
  {
  }

  lemma {:induction false} PrefixOf(lib: Library, lib': Library, l: Id, h: seq<Id>, k: seq<Id>, n: nat)
    requires IsHistory(lib, l, h) && IsHistory(lib', l, k) && Keeps(lib, lib') && n <= |h|
    ensures n <= |k| && h[..n] == k[..n]
  {
    if n > 0 {
      PrefixOf(lib, lib', l, h, k, n - 1);
      assert h[n - 1] in h;
      var i :| 0 <= i < |k| && k[i] == h[n - 1];
      Predecessor(lib, l, h, n - 1);
      Predecessor(lib', l, k, i);
      if n > 1 {
        assert h[n - 2] == h[..n - 1][n - 2] == k[..n - 1][n - 2] == k[n - 2];
      }
      assert i == n - 1;
    }
  }
}
