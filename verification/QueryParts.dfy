/** What the agent takes for a query of several parts, and how it divides one. */
module QueryParts {
  import opened Common
  import opened Text
  import opened Chunker

  // Classification

  const TRIGGERS := {" and also ", " as well as ", " compare ", " additionally ", " vs "}

  /** One of the triggers, in any case, or more than one question mark. */
  predicate IsMultiPart(query: string) {
    || (exists t :: t in TRIGGERS && Find(Lower(query), t, 0).Some?)
    || multiset(query)['?'] > 1
  }

  // Division

  predicate IsWord(c: char) {
    'a' <= c <= 'z' || 'A' <= c <= 'Z' || '0' <= c <= '9' || c == '_'
  }

  /** `\b` at position `i` */
  predicate IsBoundary(query: string, i: nat)
    requires i <= |query|
  {
    (i > 0 && IsWord(query[i - 1])) != (i < |query| && IsWord(query[i]))
  }

  /** `phrase`, in any case and between word boundaries, at position `i` */
  predicate IsPhrase(query: string, i: nat, phrase: string) {
    && i + |phrase| <= |query|
    && Lower(query[i..i + |phrase|]) == phrase
    && IsBoundary(query, i) && IsBoundary(query, i + |phrase|)
  }

  /** How much of the query the first alternative that matches at `i` takes; 0 if none does. */
  function CutLength(query: string, i: nat): (n: nat)
    ensures i + n <= |query| || n == 0
  {
    if IsPhrase(query, i, "and also") then 8
    else if IsPhrase(query, i, "as well as") then 10
    else if IsPhrase(query, i, "additionally") then 12
    else if IsPhrase(query, i, ";") then 1
    else if i < |query| && query[i] == '?' then 1
    else 0
  }

  /** The leftmost match from `start` on. */
  function NextCut(query: string, start: nat): (r: Option<nat>)
    requires start <= |query|
    ensures r.None? ==> forall i :: start <= i < |query| ==> CutLength(query, i) == 0
    ensures r.Some? ==>
              && start <= r.value < |query| && CutLength(query, r.value) > 0
              && forall i :: start <= i < r.value ==> CutLength(query, i) == 0
    decreases |query| - start
  {
    if start == |query| then None
    else if CutLength(query, start) > 0 then Some(start)
    else NextCut(query, start + 1)
  }

  /** `re.split` */
  function Pieces(query: string, start: nat): seq<string>
    requires start <= |query|
    decreases |query| - start
  {
    match NextCut(query, start)
    case None => [query[start..]]
    case Some(i) => [query[start..i]] + Pieces(query, i + CutLength(query, i))
  }

  /** The pieces of more than five characters, stripped. */
  function LongPieces(pieces: seq<string>): seq<string> {
    if pieces == [] then []
    else (if |Strip(pieces[0])| > 5 then [Strip(pieces[0])] else []) + LongPieces(pieces[1..])
  }

  /** `decompose_query`: the query itself if no piece is long enough. */
  function Decomposed(query: string): (parts: seq<string>)
    ensures parts != []
  {
    var parts := LongPieces(Pieces(query, 0));
    if parts == [] then [query] else parts
  }

  /** Where a query is divided: at a question mark; at one of three phrases, in any case, that no letter,
      digit or underscore touches; and at a semicolon that such characters touch on both sides. */
  lemma CutIff(query: string, i: nat)
    requires i < |query|
    ensures CutLength(query, i) > 0 <==>
              || query[i] == '?'
              || (query[i] == ';' && 0 < i < |query| - 1 && IsWord(query[i - 1]) && IsWord(query[i + 1]))
              || StandsAlone(query, i, "and also")
              || StandsAlone(query, i, "as well as")
              || StandsAlone(query, i, "additionally")
  {
    PhraseStands(query, i, "and also");
    PhraseStands(query, i, "as well as");
    PhraseStands(query, i, "additionally");
    SemicolonStands(query, i);
  }

  predicate StandsAlone(query: string, i: nat, phrase: string) {
    && i + |phrase| <= |query| && Lower(query[i..i + |phrase|]) == phrase
    && (i == 0 || !IsWord(query[i - 1]))
    && (i + |phrase| == |query| || !IsWord(query[i + |phrase|]))
  }

  lemma PhraseStands(query: string, i: nat, phrase: string)
    requires |phrase| > 1 && 'a' <= phrase[0] <= 'z' && 'a' <= phrase[|phrase| - 1] <= 'z'
    ensures IsPhrase(query, i, phrase) <==> StandsAlone(query, i, phrase)
  {
    if i + |phrase| <= |query| && Lower(query[i..i + |phrase|]) == phrase {
      var n := |phrase| - 1;
      assert Lower(query[i..i + |phrase|])[0] == LowerChar(query[i]);
      assert Lower(query[i..i + |phrase|])[n] == LowerChar(query[i + n]);
    }
  }

  lemma SemicolonStands(query: string, i: nat)
    requires i < |query|
    ensures IsPhrase(query, i, ";") <==>
              query[i] == ';' && 0 < i < |query| - 1 && IsWord(query[i - 1]) && IsWord(query[i + 1])
  {
    assert query[i..i + 1] == [query[i]];
    assert Lower([query[i]]) == [LowerChar(query[i])];
    assert Lower(query[i..i + 1]) == ";" <==> LowerChar(query[i]) == ';';
  }

  /** A query counts as one of several parts if it has two question marks, or one of five phrases with
      blanks around it, in any case. */
  lemma MultiPartIff(query: string)
    ensures IsMultiPart(query) <==>
              || (exists i, j :: 0 <= i < j < |query| && query[i] == '?' && query[j] == '?')
              || (exists t, i: nat :: t in {" and also ", " as well as ", " compare ", " additionally ", " vs "}
                                      && At(Lower(query), t, i))
  {
    hide Find, At;
    forall t
      ensures Find(Lower(query), t, 0).Some? <==> exists i: nat :: At(Lower(query), t, i)
    {
      if i: nat :| At(Lower(query), t, i) {
      }
    }
    TwoMarks(query);
  }

  lemma TwoMarks(query: string)
    ensures multiset(query)['?'] > 1 <==> exists i, j :: 0 <= i < j < |query| && query[i] == '?' && query[j] == '?'
  {
    if i, j :| 0 <= i < j < |query| && query[i] == '?' && query[j] == '?' {
      TwoOccurrences(query, i, j);
    }
    if multiset(query)['?'] > 1 {
      assert '?' in multiset(query);
      var i :| 0 <= i < |query| && query[i] == '?';
      if forall j :: 0 <= j < |query| && j != i ==> query[j] != '?' {
        OneOccurrence(query, i);
      }
    }
  }

  // What division keeps

  /** What lies between the pieces. */
  function Cuts(query: string, start: nat): seq<string>
    requires start <= |query|
    decreases |query| - start
  {
    match NextCut(query, start)
    case None => []
    case Some(i) => var end := i + CutLength(query, i); [query[i..end]] + Cuts(query, end)
  }

  function Weave(pieces: seq<string>, cuts: seq<string>): string
    requires |pieces| == |cuts| + 1
  {
    if cuts == [] then pieces[0] else pieces[0] + cuts[0] + Weave(pieces[1..], cuts[1..])
  }

  predicate IsConjunction(text: string) {
    Lower(text) in {"and also", "as well as", "additionally", ";", "?"}
  }

  /** Pieces and conjunctions in turn are the query again: nothing else is lost or moved. */
  lemma {:induction false} PiecesWeave(query: string, start: nat)
    requires start <= |query|
    ensures |Pieces(query, start)| == |Cuts(query, start)| + 1
    ensures Weave(Pieces(query, start), Cuts(query, start)) == query[start..]
    ensures forall k :: 0 <= k < |Cuts(query, start)| ==> IsConjunction(Cuts(query, start)[k])
    decreases |query| - start
  {
    hide IsConjunction, CutLength, Weave, NextCut;
    if NextCut(query, start).Some? {
      var i := NextCut(query, start).value;
      var end := i + CutLength(query, i);
      PiecesWeave(query, end);
      CutIsConjunction(query, i);
      WeaveCons(query[start..i], query[i..end], Pieces(query, end), Cuts(query, end));
      assert query[start..] == query[start..i] + query[i..end] + query[end..];
    } else {
      WeaveOne(query[start..]);
    }
  }

  lemma WeaveOne(piece: string)
    ensures Weave([piece], []) == piece
  {
  }

  lemma WeaveCons(piece: string, cut: string, pieces: seq<string>, cuts: seq<string>)
    requires |pieces| == |cuts| + 1
    ensures Weave([piece] + pieces, [cut] + cuts) == piece + cut + Weave(pieces, cuts)
  {
    assert ([piece] + pieces)[1..] == pieces && ([cut] + cuts)[1..] == cuts;
  }

  lemma CutIsConjunction(query: string, i: nat)
    requires i < |query| && CutLength(query, i) > 0
    ensures i + CutLength(query, i) <= |query| && IsConjunction(query[i..i + CutLength(query, i)])
  {
    if CutLength(query, i) == 1 && query[i] == '?' {
      assert query[i..i + 1] == "?";
      assert Lower("?") == "?";
    }
  }

  /** Each sub-query is a stripped piece of more than five characters, or there is only the query. */
  lemma SubQueries(query: string)
    ensures var parts := Decomposed(query);
            parts == [query] || forall k :: 0 <= k < |parts| ==> |parts[k]| > 5 && Trimmed(parts[k])
  {
    hide Pieces, Strip;
    LongPiecesTrimmed(Pieces(query, 0));
  }

  lemma {:induction false} LongPiecesTrimmed(pieces: seq<string>)
    ensures forall k :: 0 <= k < |LongPieces(pieces)| ==> |LongPieces(pieces)[k]| > 5 && Trimmed(LongPieces(pieces)[k])
  {
    hide Strip;
    if pieces != [] {
      StripTrims(pieces[0]);
      LongPiecesTrimmed(pieces[1..]);
    }
  }

  /** The pieces kept are those that are six characters or longer when stripped, as they are then. */
  lemma {:induction false} LongPiecesAre(pieces: seq<string>, part: string)
    ensures part in LongPieces(pieces) <==>
              |part| >= 6 && exists k :: 0 <= k < |pieces| && Strip(pieces[k]) == part
  {
    hide Strip;
    if pieces != [] {
      LongPiecesAre(pieces[1..], part);
      assert LongPieces(pieces) ==
               (if |Strip(pieces[0])| > 5 then [Strip(pieces[0])] else []) + LongPieces(pieces[1..]);
      if k :| 0 <= k < |pieces| && Strip(pieces[k]) == part {
        assert k > 0 ==> pieces[1..][k - 1] == pieces[k];
      }
    }
  }

  /** The sub-queries are those pieces, or the query itself if there are none, be it several or just one. */
  lemma DecomposedIs(query: string, part: string)
    ensures part in Decomposed(query) <==>
              if HasLong(Pieces(query, 0)) then
                |part| >= 6 && exists k :: 0 <= k < |Pieces(query, 0)| && Strip(Pieces(query, 0)[k]) == part
              else part == query
  {
    hide Pieces, Strip, LongPieces, HasLong;
    LongPiecesAre(Pieces(query, 0), part);
    SomeLong(Pieces(query, 0));
  }

  predicate HasLong(pieces: seq<string>) {
    exists k :: 0 <= k < |pieces| && |Strip(pieces[k])| >= 6
  }

  lemma {:induction false} SomeLong(pieces: seq<string>)
    ensures LongPieces(pieces) != [] <==> HasLong(pieces)
  {
    hide Strip;
    if pieces != [] {
      SomeLong(pieces[1..]);
      if k :| 0 <= k < |pieces| && |Strip(pieces[k])| >= 6 {
        assert k > 0 ==> pieces[1..][k - 1] == pieces[k];
      }
    }
  }

  // Two kinds of query

  /** The characters a match can start with. */
  predicate CanCut(c: char) {
    c == 'a' || c == 'A' || c == ';' || c == '?'
  }

  lemma CutStarts(query: string, i: nat)
    requires i < |query| && !CanCut(query[i])
    ensures CutLength(query, i) == 0
  {
    hide IsBoundary;
    NoPhrase(query, i, "and also");
    NoPhrase(query, i, "as well as");
    NoPhrase(query, i, "additionally");
    NoPhrase(query, i, ";");
  }

  lemma NoPhrase(query: string, i: nat, phrase: string)
    requires i < |query| && !CanCut(query[i]) && phrase != "" && (phrase[0] == 'a' || phrase[0] == ';')
    ensures !IsPhrase(query, i, phrase)
  {
    hide IsBoundary;
  }

  predicate CannotCut(text: string) {
    forall i :: 0 <= i < |text| ==> !CanCut(text[i])
  }

  /** A query without a conjunction, such as a comparison, stays one piece. */
  lemma OnePiece(query: string)
    requires CannotCut(query) && Trimmed(query)
    ensures Decomposed(query) == [query]
  {
    hide CutLength, CanCut;
    forall i | 0 <= i < |query|
      ensures CutLength(query, i) == 0
    {
      CutStarts(query, i);
    }
    assert Pieces(query, 0) == [query];
    assert LongPieces([query]) == if |query| > 5 then [query] else [] by {
      StripTrimmed(query);
      assert [query][1..] == [];
    }
  }

  lemma StripTrimmed(s: string)
    requires Trimmed(s)
    ensures Strip(s) == s
  {
  }

  lemma StripBlank(s: string)
    requires Trimmed(s) && s != ""
    ensures Strip(s + " ") == s && Strip(" " + s) == s
  {
    hide Strip;
    StripTrimmed(s);
    StripBlankBefore(s);
    StripBlankAfter(s);
  }

  lemma StripBlankBefore(s: string)
    ensures Strip(" " + s) == Strip(s)
  {
    assert (" " + s)[1..] == s;
  }

  lemma StripBlankAfter(s: string)
    requires Trimmed(s) && s != ""
    ensures Strip(s + " ") == s
  {
    var t := s + " ";
    assert t[0] == s[0] && t[..|t| - 1] == s;
    assert StripLeft(t) == t && StripRight(s) == s;
  }

  /** A query with a trigger somewhere. */
  lemma Triggered(before: string, trigger: string, after: string)
    requires trigger in TRIGGERS && Lower(trigger) == trigger
    ensures IsMultiPart(before + (trigger + after))
  {
    hide Find;
    var query := before + (trigger + after);
    LowerWithin(before, trigger, after);
    assert At(Lower(query), trigger, |before|);
    assert Find(Lower(query), trigger, 0).Some?;
  }

  lemma LowerWithin(before: string, part: string, after: string)
    ensures Lower(before + (part + after))[|before|..|before| + |part|] == Lower(part)
  {
  }

  /** Two parts joined by "and also". */
  lemma TwoPieces(first: string, second: string)
    requires CannotCut(first) && CannotCut(second)
    requires first != "" && !IsWord(first[|first| - 1]) && second != "" && !IsWord(second[0])
    ensures Pieces(first + ("and also" + second), 0) == [first, second]
  {
    hide CutLength, CanCut, IsWord, Pieces;
    var query, i := first + ("and also" + second), |first|;
    forall j | 0 <= j < i
      ensures CutLength(query, j) == 0
    {
      assert query[j] == first[j];
      CutStarts(query, j);
    }
    forall j | i + 8 <= j < |query|
      ensures CutLength(query, j) == 0
    {
      assert query[j] == second[j - i - 8];
      CutStarts(query, j);
    }
    CutsAndAlso(first, second);
    PiecesAre(query, i);
    assert query[..i] == first && query[i + 8..] == second;
  }

  lemma PiecesAre(query: string, i: nat)
    requires i + 8 <= |query| && CutLength(query, i) == 8
    requires forall j :: 0 <= j < |query| && (j < i || j >= i + 8) ==> CutLength(query, j) == 0
    ensures Pieces(query, 0) == [query[..i], query[i + 8..]]
  {
    hide CutLength;
    assert NextCut(query, 0) == Some(i);
    assert NextCut(query, i + 8) == None;
    assert Pieces(query, i + 8) == [query[i + 8..]];
  }

  lemma CutsAndAlso(first: string, second: string)
    requires first != "" && !IsWord(first[|first| - 1]) && second != "" && !IsWord(second[0])
    ensures CutLength(first + ("and also" + second), |first|) == 8
  {
    var query, i := first + ("and also" + second), |first|;
    assert query[i..i + 8] == "and also";
    assert Lower("and also") == "and also";
    assert query[i - 1] == first[i - 1] && query[i] == 'a' && query[i + 7] == 'o' && query[i + 8] == second[0];
  }
}
