/** The agentic retrieval graph: nodes, conditional edges, and the traces runs can leave. */
module AgentGraph {
  import opened Common
  import opened Text
  import opened QueryParts

  datatype Node = Classify | Decompose | Retrieve | Grade | Rewrite | Generate | Guardrails | Fail

  datatype Hit = Hit(chunkId: nat, text: string)

  datatype AgentState = AgentState(
    query: string, rewritten: string, subQueries: seq<string>, shouldDecompose: bool,
    retrieved: seq<Hit>, graded: seq<Hit>, attempts: nat, shouldRewrite: bool,
    faithfulness: real, visited: seq<Node>)

  datatype Verdict = Verdict(faithfulness: real, flags: nat)

  /** The components a run is configured with; any may be missing. Each answers as it likes, and may
      answer differently on every visit. */
  datatype Components = Components(
    retriever: Option<(nat, string) -> seq<Hit>>,
    reranker: Option<(nat, string, seq<Hit>) -> seq<Hit>>,
    grader: Option<(nat, string, seq<Hit>) -> seq<Hit>>,
    rewriter: Option<(nat, string) -> string>,
    guardrails: Option<nat -> Verdict>)

  const MAX_REWRITES := 2
  const EXPANSION := " contract agreement terms obligations clauses"

  // Collecting hits

  function Ids(hits: seq<Hit>): set<nat> {
    set i | 0 <= i < |hits| :: hits[i].chunkId
  }

  /** Each chunk where it first appears. */
  function FirstOnly(hits: seq<Hit>): seq<Hit> {
    if hits == [] then []
    else
      var init, last := FirstOnly(hits[..|hits| - 1]), hits[|hits| - 1];
      if last.chunkId in Ids(hits[..|hits| - 1]) then init else init + [last]
  }

  lemma IdsAppend(hits: seq<Hit>, h: Hit)
    ensures Ids(hits + [h]) == Ids(hits) + {h.chunkId}
    ensures FirstOnly(hits + [h]) == if h.chunkId in Ids(hits) then FirstOnly(hits) else FirstOnly(hits) + [h]
  {
    var more := hits + [h];
    assert more[..|hits|] == hits;
    assert more[|hits|] == h;
    forall x
      ensures x in Ids(more) <==> x in Ids(hits) || x == h.chunkId
    {
      if x in Ids(hits) {
        var i :| 0 <= i < |hits| && hits[i].chunkId == x;
        assert more[i].chunkId == x;
      }
    }
  }

  /** No chunk twice. */
  ghost predicate Distinct(hits: seq<Hit>) {
    forall i, j :: 0 <= i < j < |hits| ==> hits[i].chunkId != hits[j].chunkId
  }

  lemma DistinctAppend(hits: seq<Hit>, h: Hit)
    requires Distinct(hits) && h.chunkId !in Ids(hits)
    ensures Distinct(hits + [h])
  {
  }

  /** `x` is among the hits, and no earlier hit is of the same chunk. */
  ghost predicate IsFirst(hits: seq<Hit>, x: Hit) {
    exists i :: 0 <= i < |hits| && hits[i] == x && x.chunkId !in Ids(hits[..i])
  }

  lemma IsFirstAppend(hits: seq<Hit>, h: Hit, x: Hit)
    requires IsFirst(hits, x) || (x == h && h.chunkId !in Ids(hits))
    ensures IsFirst(hits + [h], x)
  {
    hide Ids;
    var more := hits + [h];
    if IsFirst(hits, x) {
      var i :| 0 <= i < |hits| && hits[i] == x && x.chunkId !in Ids(hits[..i]);
      assert more[i] == x && more[..i] == hits[..i];
    } else {
      assert more[|hits|] == x && more[..|hits|] == hits;
    }
  }

  /** No chunk twice, none lost, and each kept hit is the chunk's first. */
  lemma {:induction false} FirstOnlyIsFirst(hits: seq<Hit>)
    ensures Ids(FirstOnly(hits)) == Ids(hits)
    ensures Distinct(FirstOnly(hits))
    ensures forall i :: 0 <= i < |FirstOnly(hits)| ==> IsFirst(hits, FirstOnly(hits)[i])
  {
    hide Ids, IsFirst, Distinct;
    if hits == [] {
      NoneDistinct();
    } else {
      var init, last := hits[..|hits| - 1], hits[|hits| - 1];
      assert hits == init + [last];
      FirstOnlyIsFirst(init);
      FirstOnlyStep(init, last);
    }
  }

  lemma NoneDistinct()
    ensures Distinct([]) && Ids([]) == {} && FirstOnly([]) == []
  {
  }

  lemma FirstOnlyStep(init: seq<Hit>, last: Hit)
    requires Ids(FirstOnly(init)) == Ids(init) && Distinct(FirstOnly(init))
    requires forall i :: 0 <= i < |FirstOnly(init)| ==> IsFirst(init, FirstOnly(init)[i])
    ensures var hits := init + [last];
            && Ids(FirstOnly(hits)) == Ids(hits) && Distinct(FirstOnly(hits))
            && forall i :: 0 <= i < |FirstOnly(hits)| ==> IsFirst(hits, FirstOnly(hits)[i])
  {
    hide Ids, IsFirst, Distinct, FirstOnly;
    var hits := init + [last];
    IdsAppend(init, last);
    IdsAppend(FirstOnly(init), last);
    if last.chunkId in Ids(init) {
      assert Ids(init) + {last.chunkId} == Ids(init);
    } else {
      DistinctAppend(FirstOnly(init), last);
    }
    forall i | 0 <= i < |FirstOnly(hits)|
      ensures IsFirst(hits, FirstOnly(hits)[i])
    {
      IsFirstAppend(init, last, FirstOnly(hits)[i]);
    }
  }

  function AllHits(retriever: (nat, string) -> seq<Hit>, visit: nat, targets: seq<string>): seq<Hit> {
    if targets == [] then []
    else AllHits(retriever, visit, targets[..|targets| - 1]) + retriever(visit, targets[|targets| - 1])
  }

  /** The loop of `retrieve_node`. */
  method CollectHits(retriever: (nat, string) -> seq<Hit>, visit: nat, targets: seq<string>) returns (all: seq<Hit>)
    ensures all == FirstOnly(AllHits(retriever, visit, targets))
    ensures Distinct(all)
  {
    hide *;
    all := [];
    var seen: set<nat> := {};
    ghost var taken: seq<Hit> := [];
    NoneDistinct();
    NoTargets(retriever, visit, targets);
    for t := 0 to |targets|
      invariant taken == AllHits(retriever, visit, targets[..t])
      invariant seen == Ids(taken) && all == FirstOnly(taken)
    {
      var results := retriever(visit, targets[t]);
      NextTarget(retriever, visit, targets, t);
      ghost var before := taken;
      assert before + results[..0] == before;
      for r := 0 to |results|
        invariant taken == before + results[..r]
        invariant seen == Ids(taken) && all == FirstOnly(taken)
      {
        IdsAppend(taken, results[r]);
        assert before + results[..r] + [results[r]] == before + results[..r + 1];
        taken := taken + [results[r]];
        if results[r].chunkId !in seen {
          seen := seen + {results[r].chunkId};
          all := all + [results[r]];
        } else {
          assert seen + {results[r].chunkId} == seen;
        }
      }
      assert results[..|results|] == results;
    }
    assert targets[..|targets|] == targets;
    FirstOnlyIsFirst(taken);
  }

  lemma NoTargets(retriever: (nat, string) -> seq<Hit>, visit: nat, targets: seq<string>)
    ensures AllHits(retriever, visit, targets[..0]) == []
  {
  }

  lemma NextTarget(retriever: (nat, string) -> seq<Hit>, visit: nat, targets: seq<string>, t: nat)
    requires t < |targets|
    ensures AllHits(retriever, visit, targets[..t + 1]) == AllHits(retriever, visit, targets[..t]) + retriever(visit, targets[t])
  {
    assert targets[..t + 1][..t] == targets[..t];
  }

  // The nodes

  function Targets(s: AgentState): seq<string> {
    if s.subQueries != [] then s.subQueries else [Wanted(s)]
  }

  /** `state.get("rewritten_query") or state.get("query", "")` */
  function Wanted(s: AgentState): string {
    if s.rewritten != "" then s.rewritten else s.query
  }

  function Retrieved(c: Components, s: AgentState): seq<Hit> {
    var hits := if c.retriever.Some? then FirstOnly(AllHits(c.retriever.value, |s.visited|, Targets(s))) else [];
    if c.reranker.Some? && hits != [] then c.reranker.value(|s.visited|, Wanted(s), hits) else hits
  }

  function Execute(c: Components, node: Node, s: AgentState): AgentState {
    var t := s.(visited := s.visited + [node]);
    match node
    case Classify => t.(shouldDecompose := IsMultiPart(s.query))
    case Decompose => t.(subQueries := Decomposed(s.query))
    case Retrieve => t.(retrieved := Retrieved(c, s))
    case Grade =>
      t.(graded := if c.grader.Some? && s.retrieved != [] then c.grader.value(|s.visited|, s.query, s.retrieved) else s.retrieved)
    case Rewrite =>
      t.(rewritten := if c.rewriter.Some? then c.rewriter.value(|s.visited|, s.query) else s.query + EXPANSION,
         attempts := s.attempts + 1, shouldRewrite := false)
    case Generate => t
    case Guardrails =>
      if c.guardrails.Some? then
        var verdict := c.guardrails.value(|s.visited|);
        t.(faithfulness := verdict.faithfulness,
           shouldRewrite := (verdict.faithfulness < 0.6 || verdict.flags > 1) && s.attempts < MAX_REWRITES)
      else t.(faithfulness := 1.0, shouldRewrite := false)
    case Fail => t.(faithfulness := 1.0)
  }

  /** `decide_route` */
  function DecideRoute(s: AgentState): Node {
    if s.graded != [] then Generate else if s.attempts < MAX_REWRITES then Rewrite else Fail
  }

  /** The edges; `None` ends the run. */
  function Route(node: Node, s: AgentState): Option<Node> {
    match node
    case Classify => Some(if s.shouldDecompose then Decompose else Retrieve)
    case Decompose => Some(Retrieve)
    case Retrieve => Some(Grade)
    case Grade => Some(DecideRoute(s))
    case Rewrite => Some(Retrieve)
    case Generate => Some(Guardrails)
    case Guardrails => if s.shouldRewrite && s.attempts < MAX_REWRITES then Some(Rewrite) else None
    case Fail => None
  }

  /** What decides the next step after grading: chunks that were graded relevant lead to an answer, none
      to a rewrite while fewer than two were made, and else to the apology. */
  lemma AfterGrading(c: Components, s: AgentState)
    ensures var t := Execute(c, Grade, s);
            && t.graded == (if s.retrieved == [] || c.grader == None then s.retrieved
                            else c.grader.value(|s.visited|, s.query, s.retrieved))
            && (Route(Grade, t) == Some(Generate) <==> |t.graded| > 0)
            && (Route(Grade, t) == Some(Rewrite) <==> |t.graded| == 0 && s.attempts < 2)
            && (Route(Grade, t) == Some(Fail) <==> |t.graded| == 0 && s.attempts >= 2)
  {
  }

  /** What decides after the guardrails: another rewrite exactly if fewer than two were made and the answer
      is less than three fifths faithful or has more than one flag; else the run is over. */
  lemma AfterGuardrails(c: Components, s: AgentState)
    ensures var t := Execute(c, Guardrails, s);
            && (Route(Guardrails, t) == Some(Rewrite) <==>
                  && c.guardrails.Some? && s.attempts < 2
                  && var verdict := c.guardrails.value(|s.visited|); verdict.faithfulness < 0.6 || verdict.flags >= 2)
            && (Route(Guardrails, t) == None <==> Route(Guardrails, t) != Some(Rewrite))
            && t.faithfulness == if c.guardrails == None then 1.0 else c.guardrails.value(|s.visited|).faithfulness
  {
  }

  /** What a retrieval asks for: the sub-queries, else the last rewrite, else the query; and what a rewrite
      makes of the query. */
  lemma AskedAndRewritten(c: Components, s: AgentState)
    ensures Targets(s) == if |s.subQueries| > 0 then s.subQueries
                          else if |s.rewritten| > 0 then [s.rewritten] else [s.query]
    ensures var t := Execute(c, Rewrite, s);
            && t.attempts == s.attempts + 1
            && t.rewritten == (if c.rewriter.Some? then c.rewriter.value(|s.visited|, s.query)
                               else s.query + " contract agreement terms obligations clauses")
  {
  }

  /** What a retrieval returns: nothing without a retriever; else every chunk found for the targets, in
      their order and once each, and reordered if there is a reranker and anything was found, by the last
      rewrite or else the query. */
  lemma RetrievedIs(c: Components, s: AgentState)
    ensures var t := Execute(c, Retrieve, s);
            var text := if |s.rewritten| > 0 then s.rewritten else s.query;
            && (c.retriever == None ==> t.retrieved == [])
            && (c.retriever.Some? ==>
                  var found := FirstOnly(AllHits(c.retriever.value, |s.visited|, Targets(s)));
                  t.retrieved == if c.reranker == None || found == [] then found
                                 else c.reranker.value(|s.visited|, text, found))
  {
    hide FirstOnly, AllHits, Targets;
  }

  function Rank(node: Node): nat {
    match node
    case Classify => 8
    case Decompose => 7
    case Retrieve => 6
    case Grade => 5
    case Generate => 4
    case Guardrails => 3
    case Rewrite => 2
    case Fail => 1
  }

  function Budget(s: AgentState): nat {
    if s.attempts < MAX_REWRITES then MAX_REWRITES - s.attempts else 0
  }

  /** The rewrite node is entered only while rewrites remain. */
  predicate Entered(node: Node, s: AgentState) {
    node.Rewrite? ==> s.attempts < MAX_REWRITES
  }

  /** A run from a node on. It ends because every rewrite uses up budget and every other step moves
      forward. */
  function RunFrom(c: Components, node: Node, s: AgentState): AgentState
    requires Entered(node, s)
    decreases Budget(s), Rank(node)
  {
    var t := Execute(c, node, s);
    match Route(node, t)
    case None => t
    case Some(next) => RunFrom(c, next, t)
  }

  function Start(query: string): AgentState {
    AgentState(query, "", [], false, [], [], 0, false, 0.0, [])
  }

  function RunGraph(c: Components, query: string): AgentState {
    RunFrom(c, Classify, Start(query))
  }

  // Traces

  /** What a run visits from a retrieval on, with `budget` rewrites left. */
  predicate IsTail(t: seq<Node>, budget: nat)
    decreases budget
  {
    || t == [Retrieve, Grade, Generate, Guardrails]
    || (budget == 0 && t == [Retrieve, Grade, Fail])
    || (budget > 0 && |t| >= 3 && t[..3] == [Retrieve, Grade, Rewrite] && IsTail(t[3..], budget - 1))
    || (budget > 0 && |t| >= 5 && t[..5] == [Retrieve, Grade, Generate, Guardrails, Rewrite] && IsTail(t[5..], budget - 1))
  }

  predicate IsTrace(t: seq<Node>) {
    || (t != [] && t[0] == Classify && IsTail(t[1..], MAX_REWRITES))
    || (|t| >= 2 && t[..2] == [Classify, Decompose] && IsTail(t[2..], MAX_REWRITES))
  }

  function Rewrites(t: seq<Node>): nat {
    if t == [] then 0 else (if t[0].Rewrite? then 1 else 0) + Rewrites(t[1..])
  }

  lemma {:induction false} RewritesAppend(a: seq<Node>, b: seq<Node>)
    ensures Rewrites(a + b) == Rewrites(a) + Rewrites(b)
  {
    if a == [] {
      assert a + b == b;
    } else {
      RewritesAppend(a[1..], b);
      assert (a + b)[1..] == a[1..] + b;
    }
  }

  lemma RewritesOfRounds()
    ensures Rewrites([Retrieve, Grade]) == 0 && Rewrites([Retrieve, Grade, Fail]) == 0
    ensures Rewrites([Retrieve, Grade, Generate, Guardrails]) == 0
    ensures Rewrites([Retrieve, Grade, Rewrite]) == 1
    ensures Rewrites([Retrieve, Grade, Generate, Guardrails, Rewrite]) == 1
  {
  }

  lemma {:induction false} TailBounds(t: seq<Node>, budget: nat)
    requires IsTail(t, budget)
    ensures |t| <= 4 + 5 * budget && Rewrites(t) <= budget
    ensures t != [] && (t[|t| - 1].Guardrails? || t[|t| - 1].Fail?)
    ensures t[|t| - 1].Fail? ==> Rewrites(t) == budget
    decreases budget
  {
    hide Rewrites;
    RewritesOfRounds();
    if budget > 0 && |t| >= 3 && t[..3] == [Retrieve, Grade, Rewrite] && IsTail(t[3..], budget - 1) {
      TailBounds(t[3..], budget - 1);
      RewritesAppend(t[..3], t[3..]);
      assert t == t[..3] + t[3..];
    } else if budget > 0 && |t| >= 5 && t[..5] == [Retrieve, Grade, Generate, Guardrails, Rewrite] && IsTail(t[5..], budget - 1) {
      TailBounds(t[5..], budget - 1);
      RewritesAppend(t[..5], t[5..]);
      assert t == t[..5] + t[5..];
    }
  }

  /** From a retrieval on, whatever the components answer, a run adds one of the allowed tails. */
  lemma {:induction false} RunTail(c: Components, s: AgentState)
    requires s.attempts <= MAX_REWRITES
    ensures var t := RunFrom(c, Retrieve, s);
            s.visited <= t.visited && IsTail(t.visited[|s.visited|..], Budget(s))
    decreases Budget(s)
  {
    hide Retrieved;
    var s1 := Execute(c, Retrieve, s);
    var s2 := Execute(c, Grade, s1);
    var t := RunFrom(c, Retrieve, s);
    assert t == RunFrom(c, Grade, s1) == RunFrom(c, DecideRoute(s2), s2);
    assert s2.visited == s.visited + [Retrieve, Grade] && s2.attempts == s.attempts;
    var next := DecideRoute(s2);
    if next.Rewrite? {
      RunTailRewrite(c, s, s2, [Retrieve, Grade]);
    } else if next.Generate? {
      RunTailGenerate(c, s, s2);
    } else {
      assert t.visited == s.visited + [Retrieve, Grade, Fail];
    }
  }

  lemma RunTailGenerate(c: Components, s: AgentState, s2: AgentState)
    requires s.attempts <= MAX_REWRITES && s2.visited == s.visited + [Retrieve, Grade] && s2.attempts == s.attempts
    ensures var t := RunFrom(c, Generate, s2);
            s.visited <= t.visited && IsTail(t.visited[|s.visited|..], Budget(s))
    decreases Budget(s), 1
  {
    var s3 := Execute(c, Generate, s2);
    var s4 := Execute(c, Guardrails, s3);
    var t := RunFrom(c, Generate, s2);
    assert t == RunFrom(c, Guardrails, s3);
    assert s4.visited == s.visited + [Retrieve, Grade, Generate, Guardrails] && s4.attempts == s.attempts;
    if Route(Guardrails, s4).Some? {
      assert t == RunFrom(c, Rewrite, s4);
      RunTailRewrite(c, s, s4, [Retrieve, Grade, Generate, Guardrails]);
    } else {
      assert t.visited[|s.visited|..] == [Retrieve, Grade, Generate, Guardrails];
    }
  }

  lemma RunTailRewrite(c: Components, s: AgentState, u: AgentState, round: seq<Node>)
    requires s.attempts < MAX_REWRITES && u.attempts == s.attempts && u.visited == s.visited + round
    requires round == [Retrieve, Grade] || round == [Retrieve, Grade, Generate, Guardrails]
    ensures var t := RunFrom(c, Rewrite, u);
            s.visited <= t.visited && IsTail(t.visited[|s.visited|..], Budget(s))
    decreases Budget(s), 0
  {
    hide IsTail;
    var v := Execute(c, Rewrite, u);
    RunTail(c, v);
    var t := RunFrom(c, Rewrite, u);
    assert t == RunFrom(c, Retrieve, v);
    var tail := t.visited[|s.visited|..];
    assert v.visited == s.visited + round + [Rewrite];
    assert tail == round + [Rewrite] + t.visited[|v.visited|..];
    hide IsTail, RunFrom, Execute;
    TailRound(round, t.visited[|v.visited|..], Budget(s));
  }

  lemma TailRound(round: seq<Node>, rest: seq<Node>, budget: nat)
    requires budget > 0 && IsTail(rest, budget - 1)
    requires round == [Retrieve, Grade] || round == [Retrieve, Grade, Generate, Guardrails]
    ensures IsTail(round + [Rewrite] + rest, budget)
  {
  }

  /** Every run ends with an allowed trace: at most two rewrites and sixteen visits, and the apology only
      after both rewrites. */
  lemma RunTrace(c: Components, query: string)
    ensures var trace := RunGraph(c, query).visited;
            && IsTrace(trace) && |trace| <= 16 && Rewrites(trace) <= 2
            && (trace[|trace| - 1].Guardrails? || (trace[|trace| - 1].Fail? && Rewrites(trace) == 2))
  {
    hide Retrieved, IsTail;
    var s0 := Start(query);
    var s1 := Execute(c, Classify, s0);
    var trace := RunGraph(c, query).visited;
    if s1.shouldDecompose {
      var s2 := Execute(c, Decompose, s1);
      assert RunGraph(c, query) == RunFrom(c, Decompose, s1) == RunFrom(c, Retrieve, s2);
      RunTail(c, s2);
      assert s2.visited == [Classify, Decompose];
      assert trace == s2.visited + trace[2..];
      TailBounds(trace[2..], MAX_REWRITES);
      assert trace[1..][1..] == trace[2..] && Rewrites(trace) == Rewrites(trace[1..]) == Rewrites(trace[2..]);
    } else {
      assert RunGraph(c, query) == RunFrom(c, Retrieve, s1);
      RunTail(c, s1);
      assert s1.visited == [Classify];
      assert trace == s1.visited + trace[1..];
      TailBounds(trace[1..], MAX_REWRITES);
    }
  }

  // What a run searches for

  /** What a visit of a node asks the retriever, if there is one. */
  function SearchesAt(c: Components, node: Node, s: AgentState): seq<seq<string>> {
    if node.Retrieve? && c.retriever.Some? then [Targets(s)] else []
  }

  /** What a run asks the retriever, one list of targets for each retrieval, in order. */
  function Searches(c: Components, node: Node, s: AgentState): seq<seq<string>>
    requires Entered(node, s)
    decreases Budget(s), Rank(node)
  {
    var t := Execute(c, node, s);
    SearchesAt(c, node, s)
    + match Route(node, t)
      case None => []
      case Some(next) => Searches(c, next, t)
  }

  /** What each rewrite of a run produced, in order. */
  function RewriteTexts(c: Components, node: Node, s: AgentState): seq<string>
    requires Entered(node, s)
    decreases Budget(s), Rank(node)
  {
    var t := Execute(c, node, s);
    (if node.Rewrite? then [t.rewritten] else [])
    + match Route(node, t)
      case None => []
      case Some(next) => RewriteTexts(c, next, t)
  }

  /** Past classification and decomposition. */
  predicate IsSearching(node: Node) {
    !node.Classify? && !node.Decompose?
  }

  /** Without a retriever nothing is searched for; with one, each rewrite leads to one more search. */
  lemma {:induction false} OneSearchPerRewrite(c: Components, node: Node, s: AgentState)
    requires IsSearching(node) && Entered(node, s)
    ensures c.retriever.None? ==> Searches(c, node, s) == []
    ensures c.retriever.Some? ==>
              |Searches(c, node, s)| == |RewriteTexts(c, node, s)| + if node.Retrieve? then 1 else 0
    decreases Budget(s), Rank(node)
  {
    hide Retrieved, Targets;
    var t := Execute(c, node, s);
    if Route(node, t).Some? {
      OneSearchPerRewrite(c, Route(node, t).value, t);
    }
  }

  predicate AllAre(searches: seq<seq<string>>, targets: seq<string>) {
    forall k :: 0 <= k < |searches| ==> searches[k] == targets
  }

  /** Once there are sub-queries, every retrieval of the rest of the run searches for them. */
  lemma {:induction false} SubQueriesStay(c: Components, node: Node, s: AgentState)
    requires IsSearching(node) && Entered(node, s) && s.subQueries != []
    ensures AllAre(Searches(c, node, s), s.subQueries)
    decreases Budget(s), Rank(node)
  {
    hide Retrieved;
    var t := Execute(c, node, s);
    if Route(node, t).Some? {
      SubQueriesStay(c, Route(node, t).value, t);
    }
  }

  /** Rewrites that produced nothing, or the query itself. */
  predicate NoneNew(texts: seq<string>, query: string) {
    forall k :: 0 <= k < |texts| ==> texts[k] == "" || texts[k] == query
  }

  /** Without sub-queries every rewrite's text is what the next retrieval searches for. */
  lemma {:induction false} RewritesAreSearched(c: Components, node: Node, s: AgentState)
    requires IsSearching(node) && Entered(node, s) && s.subQueries == [] && c.retriever.Some?
    ensures AllAre(Searches(c, node, s), [s.query]) <==>
              (node.Retrieve? ==> Wanted(s) == s.query) && NoneNew(RewriteTexts(c, node, s), s.query)
    decreases Budget(s), Rank(node)
  {
    hide Retrieved, AllAre, NoneNew;
    var t := Execute(c, node, s);
    assert t.query == s.query && t.subQueries == [];
    var here := if node.Retrieve? then [[Wanted(s)]] else [];
    var written := if node.Rewrite? then [t.rewritten] else [];
    OneOnly(s.query, Wanted(s), t.rewritten);
    if Route(node, t).Some? {
      var next := Route(node, t).value;
      RewritesAreSearched(c, next, t);
      AllAreAppend(here, Searches(c, next, t), [s.query]);
      NoneNewAppend(written, RewriteTexts(c, next, t), s.query);
    } else {
      assert here + [] == here && written + [] == written;
    }
  }

  lemma OneOnly(query: string, wanted: string, text: string)
    ensures AllAre([[wanted]], [query]) <==> wanted == query
    ensures NoneNew([text], query) <==> text == "" || text == query
    ensures AllAre([], [query]) && NoneNew([], query)
  {
    assert [[wanted]][0] == [wanted] && [wanted][0] == wanted && [query][0] == query;
    assert [text][0] == text;
  }

  lemma AllAreAppend(a: seq<seq<string>>, b: seq<seq<string>>, targets: seq<string>)
    ensures AllAre(a + b, targets) <==> AllAre(a, targets) && AllAre(b, targets)
  {
    assert forall k :: 0 <= k < |a| ==> (a + b)[k] == a[k];
    assert forall k :: 0 <= k < |b| ==> (a + b)[|a| + k] == b[k];
  }

  lemma NoneNewAppend(a: seq<string>, b: seq<string>, query: string)
    ensures NoneNew(a + b, query) <==> NoneNew(a, query) && NoneNew(b, query)
  {
    assert forall k :: 0 <= k < |a| ==> (a + b)[k] == a[k];
    assert forall k :: 0 <= k < |b| ==> (a + b)[|a| + k] == b[k];
  }

  /** A run's searches and rewrites from a query on. */
  function RunSearches(c: Components, query: string): seq<seq<string>> {
    Searches(c, Classify, Start(query))
  }

  function RunRewrites(c: Components, query: string): seq<string> {
    RewriteTexts(c, Classify, Start(query))
  }

  /** A node that neither retrieves nor rewrites passes on. */
  lemma PassesOn(c: Components, node: Node, s: AgentState, next: Node)
    requires Entered(node, s) && !node.Retrieve? && !node.Rewrite? && Route(node, Execute(c, node, s)) == Some(next)
    ensures Searches(c, node, s) == Searches(c, next, Execute(c, node, s))
    ensures RewriteTexts(c, node, s) == RewriteTexts(c, next, Execute(c, node, s))
  {
    hide Retrieved;
    var t := Execute(c, node, s);
    assert [] + Searches(c, next, t) == Searches(c, next, t);
    assert [] + RewriteTexts(c, next, t) == RewriteTexts(c, next, t);
  }

  lemma FirstSearch(c: Components, query: string)
    ensures c.retriever.None? ==> RunSearches(c, query) == []
    ensures c.retriever.Some? ==> |RunSearches(c, query)| == 1 + |RunRewrites(c, query)|
    ensures c.retriever.Some? ==> RunSearches(c, query)[0] == if IsMultiPart(query) then Decomposed(query) else [query]
    ensures IsMultiPart(query) ==> AllAre(RunSearches(c, query), Decomposed(query))
    ensures c.retriever.Some? && !IsMultiPart(query) ==>
              (AllAre(RunSearches(c, query), [query]) <==> NoneNew(RunRewrites(c, query), query))
  {
    hide Retrieved, NoneNew, IsMultiPart, Decomposed;
    var s1 := Execute(c, Classify, Start(query));
    if s1.shouldDecompose {
      var s2 := Execute(c, Decompose, s1);
      PassesOn(c, Classify, Start(query), Decompose);
      PassesOn(c, Decompose, s1, Retrieve);
      OneSearchPerRewrite(c, Retrieve, s2);
      SubQueriesStay(c, Retrieve, s2);
    } else {
      PassesOn(c, Classify, Start(query), Retrieve);
      OneSearchPerRewrite(c, Retrieve, s1);
      if c.retriever.Some? {
        RewritesAreSearched(c, Retrieve, s1);
      }
    }
  }

  /** A run with a retriever searches once more than it rewrites. All its searches are the same exactly
      when the query was taken for one of several parts, whatever the rewrites produced, or no rewrite
      produced anything new. Without a retriever it searches for nothing. */
  lemma RewritesReachRetrieval(c: Components, query: string)
    ensures c.retriever.None? ==> RunSearches(c, query) == []
    ensures c.retriever.Some? ==>
              && |RunSearches(c, query)| == 1 + |RunRewrites(c, query)|
              && var same := AllAre(RunSearches(c, query), RunSearches(c, query)[0]);
                 (same <==> IsMultiPart(query) || NoneNew(RunRewrites(c, query), query))
  {
    hide RunSearches, RunRewrites, AllAre, NoneNew, IsMultiPart, Decomposed;
    FirstSearch(c, query);
  }

  /** Whatever is asked for is not there. */
  ghost predicate FindsNothing(c: Components) {
    c.retriever.Some? ==> forall visit, target :: c.retriever.value(visit, target) == []
  }

  lemma {:induction false} NoHits(retriever: (nat, string) -> seq<Hit>, visit: nat, targets: seq<string>)
    requires forall n, target :: retriever(n, target) == []
    ensures AllHits(retriever, visit, targets) == []
  {
    if targets != [] {
      NoHits(retriever, visit, targets[..|targets| - 1]);
    }
  }

  lemma NothingRetrieved(c: Components, s: AgentState)
    requires FindsNothing(c)
    ensures Retrieved(c, s) == []
  {
    if c.retriever.Some? {
      NoHits(c.retriever.value, |s.visited|, Targets(s));
    }
  }

  /** When nothing is found, a run rewrites as often as it may, without a rewriter each time to the
      expansion. */
  lemma {:induction false} RewritesInVain(c: Components, s: AgentState)
    requires FindsNothing(c) && c.rewriter.None? && s.attempts <= MAX_REWRITES
    ensures var texts := RewriteTexts(c, Retrieve, s);
            |texts| == Budget(s) && forall k :: 0 <= k < |texts| ==> texts[k] == s.query + EXPANSION
    decreases Budget(s)
  {
    hide Retrieved, IsMultiPart, Decomposed;
    NothingRetrieved(c, s);
    var s1 := Execute(c, Retrieve, s);
    var s2 := Execute(c, Grade, s1);
    assert s1.retrieved == [] && s2.graded == [];
    PassesOnSearch(c, s, s1);
    if s2.attempts < MAX_REWRITES {
      var s3 := Execute(c, Rewrite, s2);
      RewritesInVain(c, s3);
      PassesOn(c, Grade, s1, Rewrite);
      assert RewriteTexts(c, Rewrite, s2) == [s3.rewritten] + RewriteTexts(c, Retrieve, s3);
    } else {
      PassesOn(c, Grade, s1, Fail);
    }
  }

  lemma PassesOnSearch(c: Components, s: AgentState, s1: AgentState)
    requires s1 == Execute(c, Retrieve, s)
    ensures RewriteTexts(c, Retrieve, s) == RewriteTexts(c, Grade, s1)
  {
    hide Retrieved, IsMultiPart, Decomposed;
    assert [] + RewriteTexts(c, Grade, s1) == RewriteTexts(c, Grade, s1);
  }

  /** A retriever that finds nothing, and nothing else. */
  const BARE := Components(Some((_, _) => []), None, None, None, None)

  const TWO_PARTS := "price terms and also notice period"
  const COMPARISON := "price vs cost"

  lemma TwoLong(first: string, second: string)
    requires |Strip(first)| > 5 && |Strip(second)| > 5
    ensures LongPieces([first, second]) == [Strip(first), Strip(second)]
  {
    hide Strip;
    assert LongPieces([]) == [];
    assert [first, second][1..] == [second] && [second][1..] == [];
    assert LongPieces([second]) == [Strip(second)];
  }

  lemma TwoPartsDivided()
    ensures IsMultiPart(TWO_PARTS) && Decomposed(TWO_PARTS) == ["price terms", "notice period"]
  {
    hide IsMultiPart, Decomposed, Strip;
    TwoPartsDecomposed();
    assert TWO_PARTS == "price terms" + (" and also " + "notice period");
    assert Lower(" and also ") == " and also ";
    Triggered("price terms", " and also ", "notice period");
  }

  lemma TwoPartsDecomposed()
    ensures Decomposed(TWO_PARTS) == ["price terms", "notice period"]
  {
    hide Pieces, Strip, LongPieces;
    var first, second := "price terms ", " notice period";
    assert TWO_PARTS == first + ("and also" + second);
    TwoPieces(first, second);
    assert first == "price terms" + " " && second == " " + "notice period";
    StripBlank("price terms");
    StripBlank("notice period");
    TwoLong(first, second);
  }

  lemma ComparisonWhole()
    ensures IsMultiPart(COMPARISON) && Decomposed(COMPARISON) == [COMPARISON]
  {
    hide IsMultiPart, Decomposed, Strip;
    OnePiece(COMPARISON);
    assert COMPARISON == "price" + (" vs " + "cost");
    assert Lower(" vs ") == " vs ";
    Triggered("price", " vs ", "cost");
  }

  /** A query of several parts for which nothing is found is rewritten twice, to something new, and
      searched for three times in the same way. */
  lemma RewrittenInVain(query: string)
    requires IsMultiPart(query)
    ensures var searches, texts := RunSearches(BARE, query), RunRewrites(BARE, query);
            && |texts| == 2 && !NoneNew(texts, query)
            && searches == [Decomposed(query), Decomposed(query), Decomposed(query)]
  {
    hide *;
    ExpandedTwice(query);
    FirstSearch(BARE, query);
    IsBare();
    SomethingNew(RunRewrites(BARE, query), query);
    ThreeSame(RunSearches(BARE, query), Decomposed(query));
  }

  lemma IsBare()
    ensures BARE.retriever.Some? && BARE.rewriter.None? && FindsNothing(BARE)
  {
  }

  /** Both rewrites of such a query are its expansion. */
  lemma ExpandedTwice(query: string)
    requires IsMultiPart(query)
    ensures RunRewrites(BARE, query) == [query + EXPANSION, query + EXPANSION]
  {
    hide Retrieved, IsMultiPart, Decomposed;
    var s1 := Execute(BARE, Classify, Start(query));
    var s2 := Execute(BARE, Decompose, s1);
    PassesOn(BARE, Classify, Start(query), Decompose);
    PassesOn(BARE, Decompose, s1, Retrieve);
    RewritesInVain(BARE, s2);
  }

  lemma SomethingNew(texts: seq<string>, query: string)
    requires texts == [query + EXPANSION, query + EXPANSION]
    ensures !NoneNew(texts, query)
  {
    assert |texts[0]| > |query|;
    assert texts[0] != query && texts[0] != "";
  }

  lemma ThreeSame(searches: seq<seq<string>>, parts: seq<string>)
    requires |searches| == 3 && AllAre(searches, parts)
    ensures searches == [parts, parts, parts]
  {
  }

  /** The two parts of one query, and a comparison that is not even divided, are searched for three
      times each, whatever the rewrites produced. */
  lemma RewritesIgnoredExample()
    ensures var searches, texts := RunSearches(BARE, TWO_PARTS), RunRewrites(BARE, TWO_PARTS);
            var parts := ["price terms", "notice period"];
            |texts| == 2 && !NoneNew(texts, TWO_PARTS) && searches == [parts, parts, parts]
    ensures var searches, texts := RunSearches(BARE, COMPARISON), RunRewrites(BARE, COMPARISON);
            |texts| == 2 && !NoneNew(texts, COMPARISON) && searches == [[COMPARISON], [COMPARISON], [COMPARISON]]
  {
    hide RunSearches, RunRewrites, NoneNew, IsMultiPart, Decomposed;
    TwoPartsDivided();
    RewrittenInVain(TWO_PARTS);
    ComparisonWhole();
    RewrittenInVain(COMPARISON);
  }
}
