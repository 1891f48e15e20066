/** Reciprocal rank fusion of a semantic and a lexical ranking, over reals with an abstract rounding. */
module Fusion {
  import opened Common

  type Id = nat

  datatype Fused = Fused(id: Id, score: real)

  const W_SEMANTIC := 0.6
  const W_LEXICAL := 0.4

  /** Any rounding of scores that keeps order and fixes 0 and 1. */
  ghost predicate IsRounding(round: real -> real) {
    && round(0.0) == 0.0 && round(1.0) == 1.0
    && forall x, y :: x <= y ==> round(x) <= round(y)
  }

  /** A chunk's 1-based rank in a list of distinct ids. */
  function RankIn(list: seq<Id>, id: Id): (rank: Option<nat>)
    ensures rank.None? <==> id !in list
    ensures rank.Some? ==> 1 <= rank.value <= |list| && list[rank.value - 1] == id
  {
    if list == [] then None
    else if list[|list| - 1] == id then Some(|list|)
    else RankIn(list[..|list| - 1], id)
  }

  /** In a list without repetitions the rank is the position, counted from one. */
  lemma RankIs(list: seq<Id>, i: nat)
    requires NoDuplicates(list) && i < |list|
    ensures RankIn(list, list[i]) == Some(i + 1)
  {
  }

  /** `w / (rrf_k + rank)`, or nothing for a chunk the list does not hold. */
  function Component(w: real, rrfK: nat, rank: Option<nat>): real
    requires rank.Some? ==> rank.value >= 1
  {
    if rank.Some? then w / (rrfK + rank.value) as real else 0.0
  }

  function MaxPossible(rrfK: nat): real {
    W_SEMANTIC / (rrfK + 1) as real + W_LEXICAL / (rrfK + 1) as real
  }

  function Normalized(rrfK: nat, semantic: Option<nat>, lexical: Option<nat>): real
    requires (semantic.Some? ==> semantic.value >= 1) && (lexical.Some? ==> lexical.value >= 1)
  {
    MaxPossiblePositive(rrfK);
    (Component(W_SEMANTIC, rrfK, semantic) + Component(W_LEXICAL, rrfK, lexical)) / MaxPossible(rrfK)
  }

  function Min(x: real, y: real): real {
    if x <= y then x else y
  }

  /** The stored score. */
  function Score(round: real -> real, rrfK: nat, semantic: Option<nat>, lexical: Option<nat>): real
    requires (semantic.Some? ==> semantic.value >= 1) && (lexical.Some? ==> lexical.value >= 1)
  {
    round(Min(1.0, Normalized(rrfK, semantic, lexical)))
  }

  /** The score by its numbers: three fifths of the reciprocal of the smoothed semantic rank and two fifths
      of that of the lexical rank, where there are such ranks, relative to what the first place in both
      would give, and at most one. */
  lemma ScoreIs(round: real -> real, rrfK: nat, semantic: Option<nat>, lexical: Option<nat>)
    requires (semantic.Some? ==> semantic.value >= 1) && (lexical.Some? ==> lexical.value >= 1)
    ensures var s := if semantic.Some? then 0.6 / (rrfK + semantic.value) as real else 0.0;
            var l := if lexical.Some? then 0.4 / (rrfK + lexical.value) as real else 0.0;
            var best := 0.6 / (rrfK + 1) as real + 0.4 / (rrfK + 1) as real;
            best != 0.0 && Score(round, rrfK, semantic, lexical) == round(if (s + l) / best < 1.0 then (s + l) / best else 1.0)
  {
    MaxPossiblePositive(rrfK);
    hide IsRounding;
  }

  // Arithmetic

  lemma QuotientOrder(a: real, x: real, y: real)
    requires a > 0.0 && 0.0 < x <= y
    ensures 0.0 < a / y <= a / x
    ensures x < y ==> a / y < a / x
  {
  }

  lemma QuotientMonotone(a: real, b: real, m: real)
    requires m > 0.0 && a <= b
    ensures a / m <= b / m
    ensures a < b ==> a / m < b / m
  {
  }

  lemma MaxPossiblePositive(rrfK: nat)
    ensures MaxPossible(rrfK) > 0.0
  {
  }

  /** `a` is at least as good a rank as `b`; being listed beats not being listed. */
  predicate NoWorse(a: Option<nat>, b: Option<nat>) {
    b.None? || (a.Some? && a.value <= b.value)
  }

  lemma ComponentMonotone(w: real, rrfK: nat, a: Option<nat>, b: Option<nat>)
    requires w > 0.0 && (a.Some? ==> a.value >= 1) && (b.Some? ==> b.value >= 1) && NoWorse(a, b)
    ensures 0.0 <= Component(w, rrfK, b) <= Component(w, rrfK, a)
    ensures a != b ==> Component(w, rrfK, b) < Component(w, rrfK, a)
  {
    if a.Some? {
      var x := (rrfK + a.value) as real;
      QuotientOrder(w, x, if b.Some? then (rrfK + b.value) as real else x);
    }
  }

  lemma QuotientRange(raw: real, m: real)
    requires 0.0 < raw <= m
    ensures 0.0 < raw / m <= 1.0 && (raw / m == 1.0 <==> raw == m)
  {
  }

  lemma MinOne(x: real)
    ensures x <= 1.0 ==> Min(1.0, x) == x
  {
  }

  lemma NormalizedIs(rrfK: nat, semantic: Option<nat>, lexical: Option<nat>)
    requires (semantic.Some? ==> semantic.value >= 1) && (lexical.Some? ==> lexical.value >= 1)
    requires MaxPossible(rrfK) > 0.0
    ensures Normalized(rrfK, semantic, lexical)
              == (Component(W_SEMANTIC, rrfK, semantic) + Component(W_LEXICAL, rrfK, lexical)) / MaxPossible(rrfK)
    ensures NoWorse(Some(1), semantic) && NoWorse(Some(1), lexical) && NoWorse(semantic, None) && NoWorse(lexical, None)
    ensures W_SEMANTIC > 0.0 && W_LEXICAL > 0.0
  {
  }

  lemma MaxIsFirstFirst(rrfK: nat)
    ensures MaxPossible(rrfK) == Component(W_SEMANTIC, rrfK, Some(1)) + Component(W_LEXICAL, rrfK, Some(1))
  {
  }

  lemma Unlisted(rrfK: nat)
    ensures Component(W_SEMANTIC, rrfK, None) == 0.0 && Component(W_LEXICAL, rrfK, None) == 0.0
  {
  }

  /** The normalized score is positive and at most one, and one exactly for the chunk that leads both
      lists: taking the minimum with one changes nothing. */
  lemma NormalizedRange(rrfK: nat, semantic: Option<nat>, lexical: Option<nat>)
    requires (semantic.Some? ==> semantic.value >= 1) && (lexical.Some? ==> lexical.value >= 1)
    requires semantic.Some? || lexical.Some?
    ensures 0.0 < Normalized(rrfK, semantic, lexical) <= 1.0
    ensures Normalized(rrfK, semantic, lexical) == 1.0 <==> semantic == Some(1) && lexical == Some(1)
    ensures Min(1.0, Normalized(rrfK, semantic, lexical)) == Normalized(rrfK, semantic, lexical)
  {
    hide *;
    var m := MaxPossible(rrfK);
    MaxPossiblePositive(rrfK);
    NormalizedIs(rrfK, semantic, lexical);
    MaxIsFirstFirst(rrfK);
    ComponentMonotone(W_SEMANTIC, rrfK, Some(1), semantic);
    ComponentMonotone(W_LEXICAL, rrfK, Some(1), lexical);
    ComponentMonotone(W_SEMANTIC, rrfK, semantic, None);
    ComponentMonotone(W_LEXICAL, rrfK, lexical, None);
    Unlisted(rrfK);
    var raw := Component(W_SEMANTIC, rrfK, semantic) + Component(W_LEXICAL, rrfK, lexical);
    assert raw <= m && (raw == m <==> semantic == Some(1) && lexical == Some(1));
    QuotientRange(raw, m);
    MinOne(Normalized(rrfK, semantic, lexical));
  }

  /** A chunk ranked at least as well in both lists never scores lower. */
  lemma ScoreMonotone(round: real -> real, rrfK: nat, s1: Option<nat>, l1: Option<nat>, s2: Option<nat>,
                      l2: Option<nat>)
    requires IsRounding(round)
    requires (s1.Some? ==> s1.value >= 1) && (l1.Some? ==> l1.value >= 1)
    requires (s2.Some? ==> s2.value >= 1) && (l2.Some? ==> l2.value >= 1)
    requires NoWorse(s1, s2) && NoWorse(l1, l2)
    ensures Score(round, rrfK, s2, l2) <= Score(round, rrfK, s1, l1)
    ensures (s1, l1) != (s2, l2) ==> Normalized(rrfK, s2, l2) < Normalized(rrfK, s1, l1)
  {
    ComponentMonotone(W_SEMANTIC, rrfK, s1, s2);
    ComponentMonotone(W_LEXICAL, rrfK, l1, l2);
    MaxPossiblePositive(rrfK);
    QuotientMonotone(Component(W_SEMANTIC, rrfK, s2) + Component(W_LEXICAL, rrfK, l2),
                     Component(W_SEMANTIC, rrfK, s1) + Component(W_LEXICAL, rrfK, l1), MaxPossible(rrfK));
  }

  /** Stored scores lie between 0 and 1. */
  lemma ScoreRange(round: real -> real, rrfK: nat, semantic: Option<nat>, lexical: Option<nat>)
    requires IsRounding(round)
    requires (semantic.Some? ==> semantic.value >= 1) && (lexical.Some? ==> lexical.value >= 1)
    requires semantic.Some? || lexical.Some?
    ensures 0.0 <= Score(round, rrfK, semantic, lexical) <= 1.0
    ensures semantic == Some(1) && lexical == Some(1) ==> Score(round, rrfK, semantic, lexical) == 1.0
  {
  }

  // Ranking

  predicate Descending(s: seq<Fused>) {
    forall i, j :: 0 <= i < j < |s| ==> s[i].score >= s[j].score
  }

  function Insert(s: seq<Fused>, x: Fused): (r: seq<Fused>)
    ensures multiset(r) == multiset(s) + multiset{x}
  {
    if s == [] || s[|s| - 1].score >= x.score then s + [x]
    else
      assert s == s[..|s| - 1] + [s[|s| - 1]];
      Insert(s[..|s| - 1], x) + [s[|s| - 1]]
  }

  lemma {:induction false} InsertDescending(s: seq<Fused>, x: Fused)
    requires Descending(s)
    ensures Descending(Insert(s, x))
    ensures forall y :: y in Insert(s, x) ==> y == x || y in s
  {
    if s != [] && s[|s| - 1].score < x.score {
      InsertDescending(s[..|s| - 1], x);
      assert forall y :: y in s[..|s| - 1] ==> y.score >= s[|s| - 1].score;
    }
  }

  /** The sort: equal scores keep their order. */
  method SortDescending(candidates: seq<Fused>) returns (sorted: seq<Fused>)
    ensures Descending(sorted) && multiset(sorted) == multiset(candidates)
  {
    sorted := [];
    for i := 0 to |candidates|
      invariant Descending(sorted) && multiset(sorted) == multiset(candidates[..i])
    {
      InsertDescending(sorted, candidates[i]);
      assert candidates[..i + 1] == candidates[..i] + [candidates[i]];
      sorted := Insert(sorted, candidates[i]);
    }
    assert candidates[..|candidates|] == candidates;
  }

  /** How many candidates reach the threshold. */
  function Reaching(s: seq<Fused>, threshold: real): (n: nat)
    ensures n <= |s|
  {
    if s == [] then 0 else Reaching(s[..|s| - 1], threshold) + if s[|s| - 1].score >= threshold then 1 else 0
  }

  /** In a descending list those are the first ones. */
  lemma {:induction false} ReachingIsPrefix(s: seq<Fused>, threshold: real)
    requires Descending(s)
    ensures forall i :: 0 <= i < |s| ==> (s[i].score >= threshold <==> i < Reaching(s, threshold))
  {
    if s != [] {
      var init := s[..|s| - 1];
      ReachingIsPrefix(init, threshold);
      assert forall i :: 0 <= i < |init| ==> s[i] == init[i];
    }
  }

  /** The cut: those reaching the threshold, or the best one if none does, and at most `k`. */
  function Kept(ranking: seq<Fused>, threshold: real, k: nat): (n: nat)
    ensures n <= |ranking| && n <= k
  {
    var reaching := Reaching(ranking, threshold);
    var n := if reaching == 0 && ranking != [] then 1 else reaching;
    if n <= k then n else k
  }

  /** Every chunk of either list, once, with its score. */
  ghost predicate IsRanking(round: real -> real, rrfK: nat, semantic: seq<Id>, lexical: seq<Id>, ranking: seq<Fused>) {
    && (forall i, j :: 0 <= i < j < |ranking| ==> ranking[i].id != ranking[j].id)
    && (forall id :: id in semantic || id in lexical ==> Fused(id, ScoreOf(round, rrfK, semantic, lexical, id)) in ranking)
    && (forall x :: x in ranking ==>
          (x.id in semantic || x.id in lexical) && x.score == ScoreOf(round, rrfK, semantic, lexical, x.id))
  }

  function ScoreOf(round: real -> real, rrfK: nat, semantic: seq<Id>, lexical: seq<Id>, id: Id): real {
    Score(round, rrfK, RankIn(semantic, id), RankIn(lexical, id))
  }

  ghost predicate IsRetrieval(round: real -> real, rrfK: nat, semantic: seq<Id>, lexical: seq<Id>, threshold: real, k: nat,
                              result: seq<Fused>)
  {
    exists ranking ::
      && Descending(ranking) && IsRanking(round, rrfK, semantic, lexical, ranking)
      && result == ranking[..Kept(ranking, threshold, k)]
  }

  /** Fuse, sort, filter and cut: the result is the head of a ranking of all candidates. */
  method Retrieve(round: real -> real, rrfK: nat, semantic: seq<Id>, lexical: seq<Id>, threshold: real, k: nat)
    returns (result: seq<Fused>)
    ensures IsRetrieval(round, rrfK, semantic, lexical, threshold, k, result)
  {
    hide ScoreOf, IsRanking, Descending, Reaching;
    var ids := (set id | id in semantic) + (set id | id in lexical);
    var fused := FuseAll(round, rrfK, semantic, lexical, ids);
    var sorted := SortDescending(fused);
    SameRanking(round, rrfK, semantic, lexical, fused, sorted);
    var filtered := FilterReaching(sorted, threshold);
    if filtered == [] && sorted != [] {
      filtered := sorted[..1];
    }
    result := if |filtered| <= k then filtered else filtered[..k];
    assert result == sorted[..Kept(sorted, threshold, k)];
  }

  method FilterReaching(sorted: seq<Fused>, threshold: real) returns (filtered: seq<Fused>)
    requires Descending(sorted)
    ensures filtered == sorted[..Reaching(sorted, threshold)]
  {
    ReachingIsPrefix(sorted, threshold);
    hide Reaching, Descending;
    filtered := [];
    for i := 0 to |sorted|
      invariant filtered == sorted[..if i <= Reaching(sorted, threshold) then i else Reaching(sorted, threshold)]
    {
      if sorted[i].score >= threshold {
        filtered := filtered + [sorted[i]];
      }
    }
  }

  /** Score every candidate, in any order. */
  method FuseAll(round: real -> real, rrfK: nat, semantic: seq<Id>, lexical: seq<Id>,
                 ids: set<Id>) returns (fused: seq<Fused>)
    requires forall id :: id in ids <==> id in semantic || id in lexical
    ensures IsRanking(round, rrfK, semantic, lexical, fused)
  {
    hide ScoreOf;
    fused := [];
    var left := ids;
    while left != {}
      invariant left <= ids
      invariant forall i, j :: 0 <= i < j < |fused| ==> fused[i].id != fused[j].id
      invariant forall x :: x in fused ==> x.id in ids - left && x.score == ScoreOf(round, rrfK, semantic, lexical, x.id)
      invariant forall id :: id in ids - left ==> Fused(id, ScoreOf(round, rrfK, semantic, lexical, id)) in fused
    {
      var id :| id in left;
      left := left - {id};
      fused := fused + [Fused(id, ScoreOf(round, rrfK, semantic, lexical, id))];
    }
  }

  lemma SameRanking(round: real -> real, rrfK: nat, semantic: seq<Id>, lexical: seq<Id>, a: seq<Fused>, b: seq<Fused>)
    requires IsRanking(round, rrfK, semantic, lexical, a) && multiset(b) == multiset(a)
    ensures IsRanking(round, rrfK, semantic, lexical, b)
  {
    hide ScoreOf;
    assert forall x :: x in b <==> x in multiset(b);
    assert forall x :: x in a <==> x in multiset(a);
    forall i, j | 0 <= i < j < |b|
      ensures b[i].id != b[j].id
    {
      if b[i].id == b[j].id {
        assert b[i] in a && b[j] in a;
        assert b[i] == b[j];
        TwoOccurrences(b, i, j);
        OnceInMultiset(a, b[i]);
      }
    }
  }

  lemma {:induction false} OnceInMultiset(s: seq<Fused>, x: Fused)
    requires forall i, j :: 0 <= i < j < |s| ==> s[i].id != s[j].id
    ensures multiset(s)[x] <= 1
  {
    if s != [] {
      var n := |s| - 1;
      OnceInMultiset(s[..n], x);
      assert s == s[..n] + [s[n]];
      assert s[n] !in s[..n];
    }
  }

  predicate LeftOut(result: seq<Fused>, id: Id) {
    forall x :: x in result ==> x.id != id
  }

  /** What the caller gets: at most `k` chunks, best first, at least one if there is any candidate and
      `k` is positive, and no chunk left out scores above one kept. */
  lemma RetrieveGuarantee(round: real -> real, rrfK: nat, semantic: seq<Id>, lexical: seq<Id>, threshold: real,
                          k: nat, result: seq<Fused>)
    requires IsRetrieval(round, rrfK, semantic, lexical, threshold, k, result)
    ensures |result| <= k && Descending(result)
    ensures k > 0 && (semantic != [] || lexical != []) ==> result != []
    ensures forall id, r | (id in semantic || id in lexical) && r in result && LeftOut(result, id) ::
              ScoreOf(round, rrfK, semantic, lexical, id) <= r.score
    ensures forall r :: r in result && r.score < threshold ==> |result| == 1
  {
    hide ScoreOf, IsRanking, Reaching, Descending, Kept;
    var ranking :|
      && Descending(ranking) && IsRanking(round, rrfK, semantic, lexical, ranking)
      && result == ranking[..Kept(ranking, threshold, k)];
    KeptSome(round, rrfK, semantic, lexical, ranking, threshold, k);
    KeptBest(ranking, threshold, k);
    forall id, r | (id in semantic || id in lexical) && r in result && LeftOut(result, id)
      ensures ScoreOf(round, rrfK, semantic, lexical, id) <= r.score
    {
      NoneBetterLeftOut(round, rrfK, semantic, lexical, ranking, Kept(ranking, threshold, k), id, r);
    }
  }

  /** And nothing is left out needlessly: unless `k` chunks are kept, every candidate that reaches the
      threshold is; and one below it is kept only if none reaches it. */
  lemma RetrieveComplete(round: real -> real, rrfK: nat, semantic: seq<Id>, lexical: seq<Id>, threshold: real, k: nat,
                         result: seq<Fused>, id: Id)
    requires IsRetrieval(round, rrfK, semantic, lexical, threshold, k, result)
    requires id in semantic || id in lexical
    requires ScoreOf(round, rrfK, semantic, lexical, id) >= threshold
    ensures |result| < k ==> Fused(id, ScoreOf(round, rrfK, semantic, lexical, id)) in result
    ensures forall x :: x in result ==> x.score >= threshold
  {
    hide ScoreOf, Reaching;
    var ranking :|
      && Descending(ranking) && IsRanking(round, rrfK, semantic, lexical, ranking)
      && result == ranking[..Kept(ranking, threshold, k)];
    ReachingIsPrefix(ranking, threshold);
    var x := Fused(id, ScoreOf(round, rrfK, semantic, lexical, id));
    assert x in ranking;
    var i :| 0 <= i < |ranking| && ranking[i] == x;
    assert i < Reaching(ranking, threshold);
    if |result| < k {
      assert result[i] == x;
    }
  }

  lemma KeptSome(round: real -> real, rrfK: nat, semantic: seq<Id>, lexical: seq<Id>, ranking: seq<Fused>,
                 threshold: real, k: nat)
    requires IsRanking(round, rrfK, semantic, lexical, ranking)
    ensures k > 0 && (semantic != [] || lexical != []) ==> Kept(ranking, threshold, k) > 0
  {
    hide ScoreOf;
    if semantic != [] {
      assert semantic[0] in semantic;
    }
    if lexical != [] {
      assert lexical[0] in lexical;
    }
  }

  /** Below the threshold only the best candidate is ever kept. */
  lemma KeptBest(ranking: seq<Fused>, threshold: real, k: nat)
    requires Descending(ranking)
    ensures Descending(ranking[..Kept(ranking, threshold, k)])
    ensures forall r :: r in ranking[..Kept(ranking, threshold, k)] && r.score < threshold ==> Kept(ranking, threshold, k) == 1
  {
    hide Reaching;
    ReachingIsPrefix(ranking, threshold);
  }

  lemma NoneBetterLeftOut(round: real -> real, rrfK: nat, semantic: seq<Id>, lexical: seq<Id>, ranking: seq<Fused>,
                          n: nat, id: Id, r: Fused)
    requires Descending(ranking) && IsRanking(round, rrfK, semantic, lexical, ranking) && n <= |ranking|
    requires (id in semantic || id in lexical) && r in ranking[..n] && LeftOut(ranking[..n], id)
    ensures ScoreOf(round, rrfK, semantic, lexical, id) <= r.score
  {
  }
}
