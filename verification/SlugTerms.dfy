/** How a clause gets its name: the words of its heading, in small letters, joined by hyphens. */
module SlugTerms {
  import opened Common
  import opened Text
  import opened KeyText
  import opened ClauseKeys

  /** The runs of small letters and digits of a text, in order. */
  function Tokens(s: string): seq<string> {
    if s == "" then []
    else
      var before, c := Tokens(s[..|s| - 1]), s[|s| - 1];
      if !IsKeyChar(c) then before
      else if |s| > 1 && IsKeyChar(s[|s| - 2]) && before != [] then
        before[..|before| - 1] + [before[|before| - 1] + [c]]
      else before + [[c]]
  }

  function JoinedBy(sep: string, words: seq<string>): string {
    if words == [] then ""
    else if |words| == 1 then words[0]
    else JoinedBy(sep, words[..|words| - 1]) + sep + words[|words| - 1]
  }

  lemma JoinedMore(sep: string, words: seq<string>, word: string)
    ensures JoinedBy(sep, words + [word]) == (if words == [] then "" else JoinedBy(sep, words) + sep) + word
  {
    assert (words + [word])[..|words|] == words;
  }

  predicate AreTokens(words: seq<string>) {
    forall i :: 0 <= i < |words| ==> words[i] != "" && forall k :: 0 <= k < |words[i]| ==> IsKeyChar(words[i][k])
  }

  /** A hyphen stands at an end of the collapsed text only where another character stood there. */
  function Front(s: string): string {
    if s != "" && !IsKeyChar(s[0]) then "-" else ""
  }

  function Back(s: string): string {
    if s != "" && !IsKeyChar(s[|s| - 1]) && Tokens(s) != [] then "-" else ""
  }

  /** What one more character does. */
  lemma Step(init: string, c: char)
    ensures Collapse(init + [c]) ==
              if IsKeyChar(c) then Collapse(init) + [c]
              else if init != "" && !IsKeyChar(init[|init| - 1]) then Collapse(init)
              else Collapse(init) + "-"
    ensures Tokens(init + [c]) ==
              if !IsKeyChar(c) then Tokens(init)
              else if init != "" && IsKeyChar(init[|init| - 1]) && Tokens(init) != [] then
                var n := |Tokens(init)| - 1; Tokens(init)[..n] + [Tokens(init)[n] + [c]]
              else Tokens(init) + [[c]]
    ensures Front(init + [c]) == if init == "" then (if IsKeyChar(c) then "" else "-") else Front(init)
    ensures Back(init + [c]) == if !IsKeyChar(c) && Tokens(init + [c]) != [] then "-" else ""
  {
    hide IsKeyChar;
    var s := init + [c];
    assert s[..|s| - 1] == init;
  }

  lemma {:induction false} CollapseIs(s: string)
    ensures Collapse(s) == Front(s) + JoinedBy("-", Tokens(s)) + Back(s)
    ensures AreTokens(Tokens(s))
    ensures s != "" && IsKeyChar(s[|s| - 1]) ==> Tokens(s) != []
  {
    hide *;
    if s == "" {
      CollapseNothing();
    } else {
      var init, c := s[..|s| - 1], s[|s| - 1];
      CollapseIs(init);
      assert s == init + [c];
      Step(init, c);
      if IsKeyChar(c) {
        CollapseKey(init, c);
        TokensGrow(Tokens(init), c);
      } else {
        CollapseOther(init, c);
      }
    }
  }

  lemma CollapseNothing()
    ensures Collapse("") == "" && Tokens("") == [] && JoinedBy("-", []) == "" && Front("") == "" && Back("") == ""
    ensures AreTokens([])
  {
  }

  lemma TokensGrow(words: seq<string>, c: char)
    requires AreTokens(words) && IsKeyChar(c)
    ensures AreTokens(words + [[c]])
    ensures words != [] ==> AreTokens(words[..|words| - 1] + [words[|words| - 1] + [c]])
  {
  }

  lemma CollapseKey(init: string, c: char)
    requires IsKeyChar(c) && Collapse(init) == Front(init) + JoinedBy("-", Tokens(init)) + Back(init)
    requires init != "" && IsKeyChar(init[|init| - 1]) ==> Tokens(init) != []
    ensures var s := init + [c]; Collapse(s) == Front(s) + JoinedBy("-", Tokens(s)) + Back(s)
    ensures Tokens(init + [c]) != []
  {
    hide *;
    Step(init, c);
    NothingJoined();
    CollapseNothing();
    BackIs(init);
    var s, joined := init + [c], JoinedBy("-", Tokens(init));
    Regroup(Front(init), joined, Back(init), [c]);
    JoinedKey(Tokens(init), Tokens(s), Back(init), c, init != "" && IsKeyChar(init[|init| - 1]) && Tokens(init) != []);
  }

  /** A letter or digit lengthens the last token or starts another. */
  lemma JoinedKey(before: seq<string>, after: seq<string>, back: string, c: char, longer: bool)
    requires longer ==> before != [] && after == before[..|before| - 1] + [before[|before| - 1] + [c]] && back == ""
    requires !longer ==> after == before + [[c]] && back == if before == [] then "" else "-"
    ensures JoinedBy("-", after) == JoinedBy("-", before) + back + [c]
  {
    hide *;
    NothingJoined();
    if longer {
      LastLonger(before, c);
      Unchanged(JoinedBy("-", before));
    } else {
      JoinedMore("-", before, [c]);
    }
  }

  lemma Unchanged(s: string)
    ensures s + "" == s
  {
  }

  lemma Regroup(a: string, b: string, c: string, d: string)
    ensures a + b + c + d == a + (b + c + d) + ""
  {
  }

  lemma BackIs(s: string)
    ensures Back(s) == if s != "" && !IsKeyChar(s[|s| - 1]) && Tokens(s) != [] then "-" else ""
    ensures Tokens(s) == [] && s != "" && !IsKeyChar(s[0]) ==> Front(s) == "-"
  {
  }

  lemma CollapseOther(init: string, c: char)
    requires !IsKeyChar(c) && Collapse(init) == Front(init) + JoinedBy("-", Tokens(init)) + Back(init)
    requires init != "" && IsKeyChar(init[|init| - 1]) ==> Tokens(init) != []
    ensures var s := init + [c]; Collapse(s) == Front(s) + JoinedBy("-", Tokens(s)) + Back(s)
  {
    hide *;
    Step(init, c);
    NothingJoined();
    CollapseNothing();
    BackIs(init);
  }

  lemma NothingJoined()
    ensures JoinedBy("-", []) == ""
  {
  }

  lemma LastLonger(words: seq<string>, c: char)
    requires words != []
    ensures var n := |words| - 1; JoinedBy("-", words[..n] + [words[n] + [c]]) == JoinedBy("-", words) + [c]
  {
    hide *;
    var n := |words| - 1;
    assert words == words[..n] + [words[n]];
    Longer("-", words[..n], words[n], c);
  }

  lemma Longer(sep: string, init: seq<string>, word: string, c: char)
    ensures JoinedBy(sep, init + [word + [c]]) == JoinedBy(sep, init + [word]) + [c]
  {
    hide *;
    var before := if init == [] then "" else JoinedBy(sep, init) + sep;
    JoinedMore(sep, init, word + [c]);
    JoinedMore(sep, init, word);
    assert before + (word + [c]) == before + word + [c];
  }

  /** A joined list of tokens starts and ends with letters or digits. */
  lemma {:induction false} JoinedEnds(words: seq<string>)
    requires AreTokens(words) && words != []
    ensures var r := JoinedBy("-", words); r != "" && IsKeyChar(r[0]) && IsKeyChar(r[|r| - 1])
  {
    if |words| > 1 {
      JoinedEnds(words[..|words| - 1]);
    }
  }

  lemma StripsEnds(r: string, a: string, b: string)
    requires a in {"", "-"} && b in {"", "-"}
    requires r != "" && IsKeyChar(r[0]) && IsKeyChar(r[|r| - 1])
    ensures StripHyphensRight(StripHyphensLeft(a + r + b)) == r
  {
    assert (a + r + b)[|a|..] == r + b;
    assert StripHyphensLeft(r + b) == r + b;
    assert StripHyphensLeft(a + r + b) == r + b;
    assert (r + b)[..|r|] == r;
    assert StripHyphensRight(r) == r;
  }

  lemma SlugOfTokens(s: string)
    ensures StripHyphensRight(StripHyphensLeft(Collapse(s))) == JoinedBy("-", Tokens(s))
  {
    CollapseIs(s);
    if Tokens(s) == [] {
      NoTokens(s);
    } else {
      JoinedEnds(Tokens(s));
      StripsEnds(JoinedBy("-", Tokens(s)), Front(s), Back(s));
    }
  }

  lemma NoTokens(s: string)
    requires Tokens(s) == [] && Collapse(s) == Front(s) + JoinedBy("-", Tokens(s)) + Back(s)
    ensures StripHyphensRight(StripHyphensLeft(Collapse(s))) == JoinedBy("-", Tokens(s))
  {
    assert Collapse(s) == "" || Collapse(s) == "-";
    assert "-"[1..] == "";
  }

  /** The words of a text: its runs of characters other than blanks. */
  function Words(text: string): seq<string> {
    if text == "" then []
    else if IsSpace(text[0]) then Words(text[1..])
    else var k := WordEnd(text, 0); [text[..k]] + Words(text[k..])
  }

  lemma {:induction false} WordEnds(text: string, k: nat)
    requires k <= |text|
    ensures var e := WordEnd(text, k);
            && (forall i :: k <= i < e ==> !IsSpace(text[i]))
            && (e < |text| ==> IsSpace(text[e]))
    decreases |text| - k
  {
    if k < |text| && !IsSpace(text[k]) {
      WordEnds(text, k + 1);
    }
  }

  function Least(a: nat, b: nat): nat {
    if a <= b then a else b
  }

  /** The first `n` words, joined by blanks. */
  lemma {:induction false} FirstWordsAre(text: string, n: nat)
    ensures FirstWords(text, n) == Spaced(Words(text)[..Least(n, |Words(text)|)])
    decreases |text|, n
  {
    hide WordEnd, IsSpace;
    SpacedNone();
    if n > 0 && text != "" {
      if IsSpace(text[0]) {
        FirstWordsAre(text[1..], n);
      } else {
        var k := WordEnd(text, 0);
        FirstWordsAre(text[k..], n - 1);
        var rest := Words(text[k..])[..Least(n - 1, |Words(text[k..])|)];
        assert Words(text)[..Least(n, |Words(text)|)] == [text[..k]] + rest;
        WordsNotEmpty(text[k..]);
        SpacedCons(text[..k], rest);
      }
    }
  }

  function Spaced(words: seq<string>): string {
    if words == [] then "" else if |words| == 1 then words[0] else words[0] + " " + Spaced(words[1..])
  }

  lemma SpacedNone()
    ensures Spaced([]) == ""
  {
  }

  lemma SpacedCons(word: string, rest: seq<string>)
    requires forall i :: 0 <= i < |rest| ==> rest[i] != ""
    ensures Spaced([word] + rest) == if Spaced(rest) == "" then word else word + " " + Spaced(rest)
  {
    assert ([word] + rest)[1..] == rest;
  }

  lemma {:induction false} WordsNotEmpty(text: string)
    ensures forall i :: 0 <= i < |Words(text)| ==> Words(text)[i] != ""
  {
    hide WordEnd;
    if text != "" {
      if IsSpace(text[0]) {
        WordsNotEmpty(text[1..]);
      } else {
        WordsNotEmpty(text[WordEnd(text, 0)..]);
      }
    }
  }

  /** What a clause is named after: its heading, or else its first twelve words. */
  function Label(c: Chunk): string {
    if c.header.Some? && c.header.value != "" then c.header.value
    else if Words(c.content) != [] then Spaced(Words(c.content)[..Least(12, |Words(c.content)|)])
    else "clause"
  }

  /** A clause's slug: the tokens of its label in small letters joined by hyphens, at most 96 characters
      of them, or "clause" if there are none. */
  lemma SlugIs(c: Chunk)
    ensures var slug := JoinedBy("-", Tokens(Lower(Label(c))));
            NormalizedHeading(c) == if slug == "" then "clause" else slug[..Least(96, |slug|)]
  {
    hide Collapse, StripHyphensLeft, StripHyphensRight, Tokens, JoinedBy, Lower, Words, FirstWords, Spaced;
    FirstWordsAre(c.content, 12);
    SpacedEmpty(Words(c.content)[..Least(12, |Words(c.content)|)]);
    WordsNotEmpty(c.content);
    SlugOfTokens(Lower(Label(c)));
  }

  lemma SpacedEmpty(words: seq<string>)
    ensures words == [] ==> Spaced(words) == ""
    ensures words != [] && words[0] != "" ==> Spaced(words) != ""
  {
  }

  /** The clauses up to `n` with this slug. */
  function Namesakes(chunks: seq<Chunk>, n: nat, slug: string): set<nat>
    requires n <= |chunks|
  {
    set j: nat | 0 <= j < n && NormalizedHeading(chunks[j]) == slug
  }

  lemma {:induction false} SeenIs(chunks: seq<Chunk>, n: nat, slug: string)
    requires n <= |chunks|
    ensures Seen(chunks, n, slug) == |Namesakes(chunks, n, slug)|
  {
    hide NormalizedHeading;
    if n > 0 {
      SeenIs(chunks, n - 1, slug);
      assert Namesakes(chunks, n, slug) ==
               Namesakes(chunks, n - 1, slug) + if NormalizedHeading(chunks[n - 1]) == slug then {n - 1} else {};
    }
  }

  /** A clause's key: its slug, a colon, and in digits which of the clauses with that slug it is. */
  lemma KeyIs(chunks: seq<Chunk>, i: nat) returns (digits: string)
    requires i < |chunks|
    ensures var slug := NormalizedHeading(chunks[i]);
            && StableKey(chunks, i) == slug + [':'] + digits
            && NumberOf(digits) == |Namesakes(chunks, i + 1, slug)|
            && forall k :: 0 <= k < |digits| ==> '0' <= digits[k] <= '9'
  {
    hide NormalizedHeading, Decimal, NumberOf;
    var slug := NormalizedHeading(chunks[i]);
    SeenIs(chunks, i + 1, slug);
    digits := Decimal(Seen(chunks, i + 1, slug));
    DecimalIs(Seen(chunks, i + 1, slug));
  }
}
