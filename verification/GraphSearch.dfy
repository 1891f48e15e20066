/** The depth-limited view of the contract graph around one document. */
module GraphSearch {

  datatype Edge = Edge(id: string, source: string, target: string)

  predicate Joins(e: Edge, x: string, y: string) {
    (e.source == x && e.target == y) || (e.source == y && e.target == x)
  }

  predicate Adjacent(edges: seq<Edge>, x: string, y: string) {
    exists i :: 0 <= i < |edges| && Joins(edges[i], x, y)
  }

  // Distance

  /** A walk along edges in either direction, from `x` to `y`. */
  ghost predicate IsWalk(edges: seq<Edge>, w: seq<string>, x: string, y: string) {
    && w != [] && w[0] == x && w[|w| - 1] == y
    && forall i :: 0 <= i < |w| - 1 ==> Adjacent(edges, w[i], w[i + 1])
  }

  /** Reachable along at most `depth` edges. */
  ghost predicate Within(edges: seq<Edge>, root: string, x: string, depth: nat) {
    exists w :: IsWalk(edges, w, root, x) && |w| <= depth + 1
  }

  /** The ends of the edges that touch a set. */
  function Neighbours(edges: seq<Edge>, from: set<string>): set<string> {
    (set i | 0 <= i < |edges| && edges[i].source in from :: edges[i].target)
    + (set i | 0 <= i < |edges| && edges[i].target in from :: edges[i].source)
  }

  /** The ids reached in `depth` rounds. */
  function Reach(edges: seq<Edge>, root: string, depth: nat): set<string> {
    if depth == 0 then {root}
    else
      var r := Reach(edges, root, depth - 1);
      r + Neighbours(edges, r)
  }

  lemma NeighboursAdjacent(edges: seq<Edge>, from: set<string>, y: string)
    ensures y in Neighbours(edges, from) <==> exists x :: x in from && Adjacent(edges, x, y)
  {
  }

  lemma {:induction false} ReachMonotone(edges: seq<Edge>, root: string, m: nat, n: nat)
    requires m <= n
    ensures Reach(edges, root, m) <= Reach(edges, root, n)
    decreases n
  {
    hide Neighbours;
    if m < n {
      ReachMonotone(edges, root, m, n - 1);
    }
  }

  /** Rounds and distance agree. */
  lemma {:induction false} ReachIsWithin(edges: seq<Edge>, root: string, depth: nat, x: string)
    ensures x in Reach(edges, root, depth) <==> Within(edges, root, x, depth)
    decreases depth
  {
    if x in Reach(edges, root, depth) {
      ReachHasWalk(edges, root, depth, x);
    }
    if Within(edges, root, x, depth) {
      var w :| IsWalk(edges, w, root, x) && |w| <= depth + 1;
      WalkIsReached(edges, root, w, x);
      ReachMonotone(edges, root, |w| - 1, depth);
    }
  }

  lemma {:induction false} ReachHasWalk(edges: seq<Edge>, root: string, depth: nat, x: string)
    requires x in Reach(edges, root, depth)
    ensures Within(edges, root, x, depth)
  {
    hide Neighbours;
    if depth == 0 {
      assert IsWalk(edges, [root], root, x);
    } else {
      var r := Reach(edges, root, depth - 1);
      if x in r {
        ReachHasWalk(edges, root, depth - 1, x);
        var w :| IsWalk(edges, w, root, x) && |w| <= depth;
        assert |w| <= depth + 1;
      } else {
        NeighboursAdjacent(edges, r, x);
        var y :| y in r && Adjacent(edges, y, x);
        ReachHasWalk(edges, root, depth - 1, y);
        var w :| IsWalk(edges, w, root, y) && |w| <= depth;
        assert IsWalk(edges, w + [x], root, x);
      }
    }
  }

  lemma {:induction false} WalkIsReached(edges: seq<Edge>, root: string, w: seq<string>, x: string)
    requires IsWalk(edges, w, root, x)
    ensures x in Reach(edges, root, |w| - 1)
    decreases |w|
  {
    hide Neighbours, Adjacent;
    if |w| > 1 {
      var n := |w| - 1;
      var y := w[n - 1];
      WalkIsReached(edges, root, w[..n], y);
      assert Adjacent(edges, w[n - 1], w[n - 1 + 1]);
      NeighboursAdjacent(edges, Reach(edges, root, n - 1), x);
    }
  }

  // The search

  /** The new ids the first `k` edges contribute to a round. */
  function Fresh(edges: seq<Edge>, k: nat, current: set<string>, before: set<string>): set<string>
    requires k <= |edges|
  {
    Neighbours(edges[..k], current) - before
  }

  lemma FreshNext(edges: seq<Edge>, k: nat, current: set<string>, before: set<string>)
    requires k < |edges|
    ensures Fresh(edges, k + 1, current, before)
              == Fresh(edges, k, current, before)
                 + (if edges[k].source in current then {edges[k].target} - before else {})
                 + (if edges[k].target in current then {edges[k].source} - before else {})
  {
  }

  /** The ids first reached in round `depth`. */
  function Frontier(edges: seq<Edge>, root: string, depth: nat): set<string> {
    if depth == 0 then {root} else Reach(edges, root, depth) - Reach(edges, root, depth - 1)
  }

  /** Only the frontier's neighbours can be new. */
  lemma FrontierSuffices(edges: seq<Edge>, root: string, depth: nat)
    ensures Reach(edges, root, depth + 1)
              == Reach(edges, root, depth) + (Neighbours(edges, Frontier(edges, root, depth)) - Reach(edges, root, depth))
  {
  }

  /** One round: `visited` and `next` are updated while the edges are scanned, in any order. */
  method Round(edges: seq<Edge>, current: set<string>,
               before: set<string>) returns (next: set<string>, visited: set<string>)
    requires current <= before
    ensures next == Neighbours(edges, current) - before
    ensures visited == before + next
  {
    hide Fresh;
    next, visited := {}, before;
    NoneFresh(edges, current, before);
    for k := 0 to |edges|
      invariant next == Fresh(edges, k, current, before) && visited == before + next
    {
      var edge := edges[k];
      FreshNext(edges, k, current, before);
      if edge.source in current && edge.target !in visited {
        next := next + {edge.target};
        visited := visited + {edge.target};
      } else if edge.target in current && edge.source !in visited {
        next := next + {edge.source};
        visited := visited + {edge.source};
      }
    }
  }

  lemma NoneFresh(edges: seq<Edge>, current: set<string>, before: set<string>)
    ensures Fresh(edges, 0, current, before) == {}
    ensures Fresh(edges, |edges|, current, before) == Neighbours(edges, current) - before
  {
  }

  /** The edges with both ends in a set, in their order. */
  function Induced(edges: seq<Edge>, ids: set<string>): seq<Edge> {
    if edges == [] then []
    else
      var last := edges[|edges| - 1];
      Induced(edges[..|edges| - 1], ids) + if last.source in ids && last.target in ids then [last] else []
  }

  lemma {:induction false} InducedExactly(edges: seq<Edge>, ids: set<string>, e: Edge)
    ensures multiset(Induced(edges, ids))[e] == if e.source in ids && e.target in ids then multiset(edges)[e] else 0
  {
    if edges != [] {
      InducedExactly(edges[..|edges| - 1], ids, e);
      assert edges == edges[..|edges| - 1] + [edges[|edges| - 1]];
    }
  }

  /** The visited ids are exactly those within `depth` edges of the root, in either direction and
      whatever the order of the edges, and the edges kept are those between them. A depth below one
      leaves the root alone. */
  method Subgraph(edges: seq<Edge>, root: string, depth: int) returns (visited: set<string>, kept: seq<Edge>)
    ensures forall x :: x in visited <==> Within(edges, root, x, if depth > 0 then depth else 0)
    ensures forall e :: multiset(kept)[e] == if e.source in visited && e.target in visited then multiset(edges)[e] else 0
  {
    hide Neighbours, Within, Induced;
    visited := {root};
    var current := {root};
    var rounds: nat := if depth > 0 then depth else 0;
    for r := 0 to rounds
      invariant visited == Reach(edges, root, r) && current == Frontier(edges, root, r) && current <= visited
    {
      FrontierSuffices(edges, root, r);
      ghost var before := visited;
      current, visited := Round(edges, current, visited);
      assert current == Reach(edges, root, r + 1) - before;
    }
    forall x
      ensures x in visited <==> Within(edges, root, x, rounds)
    {
      ReachIsWithin(edges, root, rounds, x);
    }
    kept := [];
    InducedNone(visited);
    assert edges[..0] == [];
    for k := 0 to |edges|
      invariant kept == Induced(edges[..k], visited)
    {
      InducedNext(edges, k, visited);
      if edges[k].source in visited && edges[k].target in visited {
        kept := kept + [edges[k]];
      }
    }
    assert edges[..|edges|] == edges;
    forall e
      ensures multiset(kept)[e] == if e.source in visited && e.target in visited then multiset(edges)[e] else 0
    {
      InducedExactly(edges, visited, e);
    }
  }

  lemma InducedNone(ids: set<string>)
    ensures Induced([], ids) == []
  {
  }

  lemma InducedNext(edges: seq<Edge>, k: nat, ids: set<string>)
    requires k < |edges|
    ensures Induced(edges[..k + 1], ids)
              == Induced(edges[..k], ids) + if edges[k].source in ids && edges[k].target in ids then [edges[k]] else []
  {
    assert edges[..k + 1][..k] == edges[..k];
  }
}
