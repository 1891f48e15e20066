/** The recursive text chunker: splitting on ever finer separators, merging with overlap, renumbering. */
module Chunker {
  import opened Common
  import opened Text
  import opened ChunkWindows

  // Splitting on one separator

  predicate At(s: string, sep: string, i: nat) {
    i + |sep| <= |s| && s[i..i + |sep|] == sep
  }

  ghost predicate Contains(s: string, part: string) {
    exists i: nat :: At(s, part, i)
  }

  lemma ContainsTrans(a: string, b: string, c: string)
    requires Contains(a, b) && Contains(b, c)
    ensures Contains(a, c)
  {
    var i: nat :| At(a, b, i);
    var j: nat :| At(b, c, j);
    var part := a[i + j..i + j + |c|];
    forall k | 0 <= k < |c|
      ensures part[k] == c[k]
    {
      assert a[i..i + |b|][j + k] == b[j + k];
      assert b[j..j + |c|][k] == c[k];
    }
    assert At(a, c, i + j);
  }

  function Find(s: string, sep: string, start: nat): (r: Option<nat>)
    requires start <= |s|
    ensures r.None? ==> forall i: nat :: i >= start ==> !At(s, sep, i)
    ensures r.Some? ==> start <= r.value && At(s, sep, r.value) && forall i: nat :: start <= i < r.value ==> !At(s, sep, i)
    decreases |s| - start
  {
    if start + |sep| > |s| then None
    else if At(s, sep, start) then Some(start)
    else if start == |s| then None
    else Find(s, sep, start + 1)
  }

  /** `text.split(sep)` */
  function SplitOn(text: string, sep: string): (parts: seq<string>)
    requires sep != ""
    ensures parts != []
  {
    var at := Find(text, sep, 0);
    if at.None? then [text]
    else [text[..at.value]] + SplitOn(text[at.value + |sep|..], sep)
  }

  lemma {:induction false} PartsLackSeparator(text: string, sep: string, k: nat)
    requires sep != "" && k < |SplitOn(text, sep)|
    ensures !Contains(SplitOn(text, sep)[k], sep)
    decreases |text|
  {
    var at := Find(text, sep, 0);
    if at.Some? && k == 0 {
      var part := text[..at.value];
      forall i: nat
        ensures !At(part, sep, i)
      {
        if At(part, sep, i) {
          assert text[i..i + |sep|] == part[i..i + |sep|];
          assert At(text, sep, i);
        }
      }
    } else if at.Some? {
      PartsLackSeparator(text[at.value + |sep|..], sep, k - 1);
    }
  }

  /** The parts from `i` on, with the separators between them and, unless `i` is the first, before. */
  function Rest(parts: seq<string>, sep: string, i: nat): string
    requires i <= |parts|
    decreases |parts| - i
  {
    if i == |parts| then "" else (if i > 0 then sep else "") + parts[i] + Rest(parts, sep, i + 1)
  }

  lemma {:induction false} RestShift(head: string, tail: seq<string>, sep: string, i: nat)
    requires 0 < i <= |tail|
    ensures Rest([head] + tail, sep, i + 1) == Rest(tail, sep, i)
    decreases |tail| - i
  {
    if i < |tail| {
      RestShift(head, tail, sep, i + 1);
    }
  }

  /** Joining the parts with the separator gives the text back. */
  lemma {:induction false} SplitJoin(text: string, sep: string)
    requires sep != ""
    ensures Rest(SplitOn(text, sep), sep, 0) == text
    decreases |text|
  {
    hide Rest, Find;
    var at := Find(text, sep, 0);
    if at.Some? {
      var head, tail := text[..at.value], text[at.value + |sep|..];
      SplitJoin(tail, sep);
      RestCons(head, SplitOn(tail, sep), sep);
      CutAt(text, sep, at.value);
    } else {
      RestOne(text, sep);
    }
  }

  lemma RestOne(text: string, sep: string)
    ensures Rest([text], sep, 0) == text
  {
  }

  lemma CutAt(text: string, sep: string, i: nat)
    requires At(text, sep, i)
    ensures text == text[..i] + (sep + text[i + |sep|..])
  {
  }

  lemma RestCons(head: string, tail: seq<string>, sep: string)
    requires tail != []
    ensures Rest([head] + tail, sep, 0) == head + (sep + Rest(tail, sep, 0))
  {
    RestShift(head, tail, sep, 1);
    assert Rest([head] + tail, sep, 1) == sep + tail[0] + Rest([head] + tail, sep, 2);
  }

  // Lossless splitting

  datatype Strand = Kept(text: string) | Dropped(text: string)

  function Flatten(strands: seq<Strand>): string {
    if strands == [] then "" else Flatten(strands[..|strands| - 1]) + strands[|strands| - 1].text
  }

  function Pieces(strands: seq<Strand>): seq<string> {
    if strands == [] then []
    else
      var last := strands[|strands| - 1];
      Pieces(strands[..|strands| - 1]) + if last.Kept? then [last.text] else []
  }

  lemma ConcatAssociative(a: string, b: string, c: string)
    ensures (a + b) + c == a + (b + c)
  {
  }

  lemma {:induction false} FlattenAppend(a: seq<Strand>, b: seq<Strand>)
    ensures Flatten(a + b) == Flatten(a) + Flatten(b)
  {
    if b == [] {
      assert a + b == a;
    } else {
      var init, last := b[..|b| - 1], b[|b| - 1];
      FlattenAppend(a, init);
      assert (a + b)[..|a + b| - 1] == a + init && (a + b)[|a + b| - 1] == last;
      ConcatAssociative(Flatten(a), Flatten(init), last.text);
    }
  }

  lemma {:induction false} PiecesAppend(a: seq<Strand>, b: seq<Strand>)
    ensures Pieces(a + b) == Pieces(a) + Pieces(b)
  {
    if b == [] {
      assert a + b == a;
    } else {
      var init := b[..|b| - 1];
      PiecesAppend(a, init);
      assert (a + b)[..|a + b| - 1] == a + init;
    }
  }

  lemma StrandsAppend(a: seq<Strand>, b: seq<Strand>)
    ensures Flatten(a + b) == Flatten(a) + Flatten(b)
    ensures Pieces(a + b) == Pieces(a) + Pieces(b)
  {
    FlattenAppend(a, b);
    PiecesAppend(a, b);
  }

  lemma StrandOne(s: Strand)
    ensures Flatten([s]) == s.text
    ensures Pieces([s]) == if s.Kept? then [s.text] else []
  {
  }

  /** The text is the pieces in order, with nothing between them but the listed separators. */
  ghost predicate Woven(text: string, pieces: seq<string>, separators: seq<string>, strands: seq<Strand>) {
    && Flatten(strands) == text
    && Pieces(strands) == pieces
    && forall i :: 0 <= i < |strands| && strands[i].Dropped? ==> strands[i].text in separators
  }

  /** Between two pieces there is always a separator: none was cut. */
  predicate Uncut(strands: seq<Strand>) {
    forall i :: 0 < i < |strands| ==> strands[i - 1].Dropped? || strands[i].Dropped?
  }

  lemma UncutStep(strands: seq<Strand>, sep: string, part: seq<Strand>, first: bool)
    requires Uncut(strands) && Uncut(part) && (first ==> strands == [])
    ensures Uncut(strands + (if first then [] else [Dropped(sep)]) + part)
  {
    if first {
      assert strands + [] + part == part;
    }
  }

  lemma UncutOne(strand: Strand)
    ensures Uncut([strand]) && Uncut([])
  {
  }

  lemma {:induction false} PieceWithin(strands: seq<Strand>, k: nat)
    requires k < |Pieces(strands)|
    ensures Contains(Flatten(strands), Pieces(strands)[k])
  {
    var n := |strands| - 1;
    var init, last := strands[..n], strands[n];
    var whole, before := Flatten(strands), Flatten(init);
    if k < |Pieces(init)| {
      PieceWithin(init, k);
      var p := Pieces(init)[k];
      var i: nat :| At(before, p, i);
      assert whole[i..i + |p|] == before[i..i + |p|];
      assert At(whole, p, i);
    } else {
      assert whole[|before|..|before| + |last.text|] == last.text;
      assert At(whole, last.text, |before|);
    }
  }

  // The chunker

  datatype ChunkData = ChunkData(content: string, page: int, header: Option<string>, index: nat, start: int, end: int, tokens: nat)

  const SEPARATORS := ["\n\n", "\n", ". ", "; ", ", ", " "]

  function Counts(count: string -> nat, splits: seq<string>): (tokens: seq<nat>)
    ensures |tokens| == |splits| && forall i :: 0 <= i < |splits| ==> tokens[i] == count(splits[i])
  {
    seq(|splits|, i requires 0 <= i < |splits| => count(splits[i]))
  }

  /** `" ".join(splits)` */
  function Spaced(splits: seq<string>): string {
    if splits == [] then ""
    else if |splits| == 1 then splits[0]
    else splits[0] + " " + Spaced(splits[1..])
  }

  /** Splits are joined by one blank. */
  lemma {:induction false} SpacedIs(splits: seq<string>, last: string)
    ensures Spaced([last]) == last
    ensures splits != [] ==> Spaced(splits + [last]) == Spaced(splits) + [' '] + last
  {
    if |splits| > 1 {
      SpacedIs(splits[1..], last);
      assert (splits + [last])[1..] == splits[1..] + [last];
    } else if |splits| == 1 {
      assert (splits + [last])[1..] == [last];
    }
  }

  lemma {:induction false} SumShift(count: string -> nat, splits: seq<string>, s: nat, e: nat, lo: nat, hi: nat)
    requires s <= e <= |splits| && lo <= hi <= e - s
    ensures Sum(Counts(count, splits[s..e]), lo, hi) == Sum(Counts(count, splits), s + lo, s + hi)
    decreases hi
  {
    if lo < hi {
      SumShift(count, splits, s, e, lo, hi - 1);
    }
  }

  lemma CarryShift(count: string -> nat, splits: seq<string>, overlap: int, s: nat, e: nat, j: nat)
    requires s <= e <= |splits| && IsCarry(Counts(count, splits[s..e]), overlap, Window(0, e - s), j)
    ensures IsCarry(Counts(count, splits), overlap, Window(s, e), s + j)
  {
    hide Sum, Counts;
    SumShift(count, splits, s, e, j, e - s);
    if j > 0 {
      SumShift(count, splits, s, e, j - 1, e - s);
    }
  }

  datatype RecursiveChunker = RecursiveChunker(chunkSize: int, chunkOverlap: int, minChunkSize: int, countTokens: string -> nat) {

    /** Consecutive slices of `step` characters, the last possibly shorter. */
    function Sliced(text: string, step: nat): seq<string>
      requires step > 0
    {
      if text == "" then [] else if |text| <= step then [text] else [text[..step]] + Sliced(text[step..], step)
    }

    /** The pieces a text is split into. */
    function SplitBy(text: string, separators: seq<string>): seq<string>
      decreases |separators|, 1, 0
    {
      if separators == [] || countTokens(text) <= chunkSize then [text]
      else if separators[0] == "" then Sliced(text, if chunkSize * 3 > 1 then chunkSize * 3 else 1)
      else SplitParts(SplitOn(text, separators[0]), separators)
    }

    /** The pieces of the parts at the first separator: long ones go on with the other separators. */
    function SplitParts(parts: seq<string>, separators: seq<string>): seq<string>
      requires separators != []
      decreases |separators|, 0, |parts|
    {
      if parts == [] then []
      else
        var part := parts[|parts| - 1];
        SplitParts(parts[..|parts| - 1], separators)
        + if part == "" then []
          else if countTokens(part) > chunkSize then SplitBy(part, separators[1..])
          else [part]
    }

    lemma SplitByIs(text: string, separators: seq<string>)
      ensures SplitBy(text, separators) ==
                if separators == [] || countTokens(text) <= chunkSize then [text]
                else if separators[0] == "" then Sliced(text, if chunkSize * 3 > 1 then chunkSize * 3 else 1)
                else SplitParts(SplitOn(text, separators[0]), separators)
    {
    }

    lemma SplitPartsNone(parts: seq<string>, separators: seq<string>)
      requires separators != []
      ensures SplitParts(parts[..0], separators) == []
    {
    }

    lemma SplitPartsNext(parts: seq<string>, i: nat, separators: seq<string>)
      requires i < |parts| && separators != []
      ensures SplitParts(parts[..i + 1], separators) ==
                SplitParts(parts[..i], separators)
                + if parts[i] == "" then []
                  else if countTokens(parts[i]) > chunkSize then SplitBy(parts[i], separators[1..])
                  else [parts[i]]
    {
      hide SplitBy;
      assert parts[..i + 1][..i] == parts[..i];
    }

    /** The pieces of the parts that are not empty, each split on its own, one after the other. */
    function SplitEach(parts: seq<string>, separators: seq<string>): seq<string> {
      if parts == [] then []
      else SplitEach(parts[..|parts| - 1], separators)
           + if parts[|parts| - 1] == "" then [] else SplitBy(parts[|parts| - 1], separators)
    }

    /** A text within the chunk size is not divided, nor is one when no separators are left; any other is
        divided at every place of the first separator, and each part that is not empty split on its own. */
    lemma SplitRules(text: string, separators: seq<string>)
      ensures countTokens(text) <= chunkSize || separators == [] ==> SplitBy(text, separators) == [text]
      ensures countTokens(text) > chunkSize && separators != [] && separators[0] != "" ==>
                SplitBy(text, separators) == SplitEach(SplitOn(text, separators[0]), separators)
    {
      hide SplitParts, SplitEach, SplitOn;
      if countTokens(text) > chunkSize && separators != [] && separators[0] != "" {
        var parts := SplitOn(text, separators[0]);
        forall k | 0 <= k < |parts|
          ensures !Contains(parts[k], separators[0])
        {
          PartsLackSeparator(text, separators[0], k);
        }
        EachIsSplit(parts, separators);
      }
    }

    lemma {:induction false} EachIsSplit(parts: seq<string>, separators: seq<string>)
      requires separators != [] && separators[0] != ""
      requires forall k :: 0 <= k < |parts| ==> !Contains(parts[k], separators[0])
      ensures SplitParts(parts, separators) == SplitEach(parts, separators)
    {
      if parts != [] {
        var n := |parts| - 1;
        EachIsSplit(parts[..n], separators);
        hide SplitOn, SplitEach, SplitBy, SplitParts;
        if parts[n] != "" {
          OnePart(parts[n], separators);
        }
        SplitEachLast(parts, separators);
        SplitPartsNext(parts, n, separators);
        assert parts[..n + 1] == parts;
      }
    }

    lemma SplitEachLast(parts: seq<string>, separators: seq<string>)
      requires parts != []
      ensures SplitEach(parts, separators) ==
                SplitEach(parts[..|parts| - 1], separators)
                + if parts[|parts| - 1] == "" then [] else SplitBy(parts[|parts| - 1], separators)
    {
      hide SplitBy;
    }

    /** A part without the first separator goes on with the others. */
    lemma OnePart(part: string, separators: seq<string>)
      requires separators != [] && separators[0] != "" && !Contains(part, separators[0]) && part != ""
      ensures SplitBy(part, separators) ==
                if countTokens(part) > chunkSize then SplitBy(part, separators[1..]) else [part]
    {
      hide SplitBy, SplitParts, SplitOn;
      SplitByIs(part, separators);
      NotSplit(part, separators[0]);
      SplitPartsNone([part], separators);
      SplitPartsNext([part], 0, separators);
      assert [part][..1] == [part];
    }

    lemma NotSplit(part: string, sep: string)
      requires sep != "" && !Contains(part, sep)
      ensures SplitOn(part, sep) == [part]
    {
      assert forall i: nat :: !At(part, sep, i);
    }

    /** `_recursive_split`: nothing is lost but separators, and a piece that is still too long contains
        none of the separators. Unless an empty separator asks for it, the text is divided nowhere else:
        the character fallback plays no part. */
    method RecursiveSplit(text: string, separators: seq<string>)
      returns (splits: seq<string>, ghost strands: seq<Strand>)
      ensures splits == SplitBy(text, separators)
      ensures Woven(text, splits, separators, strands)
      ensures text != "" ==> NoneEmpty(splits)
      ensures "" !in separators ==> Undivided(splits, separators) && Uncut(strands)
      decreases |separators|
    {
      hide *;
      WholeText(this, text, separators);
      SplitByIs(text, separators);
      if separators == [] || countTokens(text) <= chunkSize {
        UncutOne(Kept(text));
        return [text], [Kept(text)];
      }
      var sep := separators[0];
      splits, strands := [], [];
      if sep == "" {
        splits, strands := Slices(text, if chunkSize * 3 > 1 then chunkSize * 3 else 1);
        SlicesWoven(text, splits, separators, strands);
        return;
      }
      var parts := SplitOn(text, sep);
      StartSplitting(this, text, separators, parts);
      UncutOne(Kept(text));
      SplitPartsNone(parts, separators);
      for i := 0 to |parts|
        invariant splits == SplitParts(parts[..i], separators)
        invariant Splitting(this, text, separators, parts, i, splits, strands)
        invariant i == 0 ==> strands == []
        invariant "" !in separators ==> Uncut(strands)
      {
        var part := parts[i];
        SplitPartsNext(parts, i, separators);
        var sub: seq<string> := [];
        ghost var subStrands: seq<Strand> := [];
        if part == "" {
          EmptyPart(this, separators);
          UncutOne(Kept(part));
        } else if countTokens(part) > chunkSize {
          sub, subStrands := RecursiveSplit(part, separators[1..]);
          assert "" in separators[1..] ==> "" in separators;
          LongPart(this, text, separators, i, sub, subStrands);
        } else {
          sub, subStrands := [part], [Kept(part)];
          ShortPart(this, part, separators);
          UncutOne(Kept(part));
        }
        if "" !in separators {
          UncutStep(strands, sep, subStrands, i == 0);
        }
        PartStep(this, text, separators, parts, i, splits, strands, sub, subStrands);
        splits, strands := splits + sub, strands + (if i > 0 then [Dropped(sep)] else []) + subStrands;
      }
      assert parts[..|parts|] == parts;
      DoneSplitting(this, text, separators, parts, splits, strands);
    }

    /** No piece over the chunk size contains a separator. */
    ghost predicate Undivided(splits: seq<string>, separators: seq<string>) {
      forall i :: 0 <= i < |splits| && countTokens(splits[i]) > chunkSize ==> LacksAll(splits[i], separators)
    }

    lemma SlicedNext(text: string, step: nat, i: nat, end: nat)
      requires step > 0 && i < |text| && end == if i + step < |text| then i + step else |text|
      ensures Sliced(text[i..], step) == [text[i..end]] + Sliced(text[end..], step)
    {
      if i + step < |text| {
        assert text[i..][step..] == text[end..] && text[i..][..step] == text[i..end];
      } else {
        assert text[end..] == "" && text[i..end] == text[i..];
        SlicedNothing(step);
      }
    }

    lemma SlicedNothing(step: nat)
      requires step > 0
      ensures Sliced("", step) == []
    {
    }

    lemma SliceKept(text: string, i: nat, end: nat, splits: seq<string>, strands: seq<Strand>)
      requires i < end <= |text| && Woven(text[..i], splits, [], strands) && NoneEmpty(splits)
      ensures Woven(text[..end], splits + [text[i..end]], [], strands + [Kept(text[i..end])])
      ensures NoneEmpty(splits + [text[i..end]])
    {
      StrandsAppend(strands, [Kept(text[i..end])]);
      StrandOne(Kept(text[i..end]));
      assert text[..end] == text[..i] + text[i..end];
    }

    lemma NothingSliced(text: string, step: nat)
      requires step > 0
      ensures Woven(text[..0], [], [], []) && NoneEmpty([]) && text[0..] == text && [] + Sliced(text, step) == Sliced(text, step)
    {
    }

    lemma AllSliced(text: string, step: nat, splits: seq<string>)
      requires step > 0
      ensures text[..|text|] == text && splits + Sliced(text[|text|..], step) == splits
    {
      SlicedNothing(step);
    }

    lemma SlicesAssociate(splits: seq<string>, slice: string, rest: seq<string>)
      ensures splits + ([slice] + rest) == splits + [slice] + rest
    {
    }

    /** The character-level fallback: consecutive slices of `step` characters. */
    method Slices(text: string, step: nat) returns (splits: seq<string>, ghost strands: seq<Strand>)
      requires step > 0
      ensures splits == Sliced(text, step)
      ensures Woven(text, splits, [], strands)
      ensures NoneEmpty(splits)
    {
      hide *;
      splits, strands := [], [];
      NothingSliced(text, step);
      var i := 0;
      while i < |text|
        invariant i <= |text|
        invariant Sliced(text, step) == splits + Sliced(text[i..], step)
        invariant Woven(text[..i], splits, [], strands)
        invariant NoneEmpty(splits)
      {
        var end := if i + step < |text| then i + step else |text|;
        SlicedNext(text, step, i, end);
        SliceKept(text, i, end, splits, strands);
        SlicesAssociate(splits, text[i..end], Sliced(text[end..], step));
        splits, strands := splits + [text[i..end]], strands + [Kept(text[i..end])];
        i := end;
      }
      AllSliced(text, step, splits);
    }

    /** The end of the chunk that fits the overlap, found from the back. */
    method KeepOverlap(current: seq<string>) returns (kept: seq<string>, tokens: nat)
      ensures |kept| <= |current| && kept == current[|current| - |kept|..]
      ensures tokens == Sum(Counts(countTokens, current), |current| - |kept|, |current|)
      ensures IsCarry(Counts(countTokens, current), chunkOverlap, Window(0, |current|), |current| - |kept|)
    {
      ghost var counts := Counts(countTokens, current);
      var p: nat := |current|;
      kept, tokens := [], 0;
      while p > 0
        invariant p <= |current| && kept == current[p..] && tokens == Sum(counts, p, |current|)
        invariant p == |current| || tokens <= chunkOverlap
      {
        var previous := countTokens(current[p - 1]);
        SumFront(counts, p - 1, |current|);
        if tokens + previous <= chunkOverlap {
          kept, tokens, p := [current[p - 1]] + kept, tokens + previous, p - 1;
        } else {
          return;
        }
      }
    }

    /** `_merge_splits`: each chunk joins one window of the splits, and the windows are the greedy
        ones. */
    method MergeSplits(splits: seq<string>) returns (merged: seq<string>)
      ensures IsMerge(splits, merged)
      ensures HasOversize(splits, merged) <==> Overflows(Counts(countTokens, splits), chunkSize, chunkOverlap)
    {
      hide *;
      NothingPending(this, splits);
      if splits == [] {
        Merges(splits, [], []);
        MergeOversize(splits, []);
        return [];
      }
      ghost var start: nat := 0;
      ghost var windows: seq<Window> := [];
      merged := [];
      var current: seq<string>, currentTokens: nat := [], 0;
      for i := 0 to |splits|
        invariant Pending(this, splits, windows, merged, start, current, currentTokens, i)
      {
        ghost var closed := merged;
        var splitTokens := countTokens(splits[i]);
        if currentTokens + splitTokens > chunkSize && current != [] {
          merged := merged + [Spaced(current)];
          var kept, keptTokens := KeepOverlap(current);
          ghost var j := |current| - |kept|;
          FlushStep(this, splits, windows, closed, start, current, currentTokens, i, kept, keptTokens, j);
          windows, start := windows + [Window(start, i)], start + j;
          current, currentTokens := kept, keptTokens;
        } else {
          TakeSplit(this, splits, windows, merged, start, current, currentTokens, i);
        }
        current, currentTokens := current + [splits[i]], currentTokens + splitTokens;
      }
      LastWindow(this, splits, windows, merged, start, current, currentTokens);
      merged := merged + [Spaced(current)];
      Merges(splits, merged, windows + [Window(start, |splits|)]);
      MergeOversize(splits, merged);
    }

    /** The chunks of the splits: the texts of the greedy windows. */
    ghost predicate IsMerge(splits: seq<string>, merged: seq<string>) {
      exists windows :: Greedy(Counts(countTokens, splits), chunkSize, chunkOverlap, windows, |splits|) && Rendered(splits, windows, merged)
    }

    lemma Merges(splits: seq<string>, merged: seq<string>, windows: seq<Window>)
      requires Greedy(Counts(countTokens, splits), chunkSize, chunkOverlap, windows, |splits|) && Rendered(splits, windows, merged)
      ensures IsMerge(splits, merged)
    {
    }

    /** Some chunk holds splits of more than `chunk_size` tokens in all. */
    ghost predicate HasOversize(splits: seq<string>, merged: seq<string>) {
      exists windows ::
        && Greedy(Counts(countTokens, splits), chunkSize, chunkOverlap, windows, |splits|)
        && Rendered(splits, windows, merged)
        && SomeOversize(Counts(countTokens, splits), chunkSize, windows)
    }

    /** That happens exactly when the splits overflow, which a caller can compute from them. */
    lemma MergeOversize(splits: seq<string>, merged: seq<string>)
      requires IsMerge(splits, merged)
      ensures HasOversize(splits, merged) <==> Overflows(Counts(countTokens, splits), chunkSize, chunkOverlap)
    {
      hide Greedy, Rendered, SomeOversize, Overflows, Counts;
      var tokens := Counts(countTokens, splits);
      var windows :| Greedy(tokens, chunkSize, chunkOverlap, windows, |splits|) && Rendered(splits, windows, merged);
      OversizeIff(tokens, chunkSize, chunkOverlap, windows);
      if HasOversize(splits, merged) {
        var w :|
          && Greedy(tokens, chunkSize, chunkOverlap, w, |splits|) && Rendered(splits, w, merged)
          && SomeOversize(tokens, chunkSize, w);
        OversizeIff(tokens, chunkSize, chunkOverlap, w);
      }
    }

    /** The chunks are determined by the splits. */
    lemma MergeUnique(splits: seq<string>, a: seq<string>, b: seq<string>)
      requires IsMerge(splits, a) && IsMerge(splits, b)
      ensures a == b
    {
      hide Greedy, Spaced, Counts;
      var v :| Greedy(Counts(countTokens, splits), chunkSize, chunkOverlap, v, |splits|) && Rendered(splits, v, a);
      var w :| Greedy(Counts(countTokens, splits), chunkSize, chunkOverlap, w, |splits|) && Rendered(splits, w, b);
      WindowsUnique(Counts(countTokens, splits), chunkSize, chunkOverlap, v, w, |splits|);
    }

    /** The two steps of `_chunk_text`: a blank text has no chunks; any other is split at the fixed
        separators, and nowhere else, and merged. */
    method SplitAndMerge(text: string) returns (merged: seq<string>)
      ensures Strip(text) == "" ==> merged == []
      ensures Strip(text) != "" ==> exists splits :: IsSplit(text, splits) && IsMerge(splits, merged)
    {
      hide *;
      if text == "" || Strip(text) == "" {
        BlankText(text);
        return [];
      }
      NoEmptySeparator();
      var splits, strands := RecursiveSplit(text, SEPARATORS);
      IsSplitIntro(text, splits, strands);
      merged := MergeSplits(splits);
    }

    /** The text's pieces in order: none empty, none too long that could be divided, and a separator,
        the only thing that is lost, between any two, so that none was cut elsewhere. */
    ghost predicate IsSplit(text: string, splits: seq<string>) {
      && splits == SplitBy(text, ["\n\n", "\n", ". ", "; ", ", ", " "])
      && NoneEmpty(splits) && Undivided(splits, SEPARATORS)
      && exists strands :: Woven(text, splits, SEPARATORS, strands) && Uncut(strands)
    }

    lemma IsSplitIntro(text: string, splits: seq<string>, strands: seq<Strand>)
      requires Woven(text, splits, SEPARATORS, strands) && Uncut(strands)
      requires splits == SplitBy(text, SEPARATORS) && NoneEmpty(splits) && Undivided(splits, SEPARATORS)
      ensures IsSplit(text, splits)
    {
      hide SplitBy;
    }

    /** `chunk_document`'s last step: short chunks go unless there is only one, the rest are numbered
        from 0. */
    method KeepAndRenumber(chunks: seq<ChunkData>) returns (valid: seq<ChunkData>)
      ensures exists origin :: KeptFrom(chunks, minChunkSize, valid, origin)
    {
      valid := [];
      ghost var origin: seq<nat> := [];
      for i := 0 to |chunks|
        invariant KeptBefore(chunks, minChunkSize, valid, origin, i)
      {
        if |Strip(chunks[i].content)| >= minChunkSize || |chunks| == 1 {
          valid, origin := valid + [chunks[i].(index := |valid|)], origin + [i];
        }
      }
      assert KeptFrom(chunks, minChunkSize, valid, origin);
    }
  }

  /** `origin` says which of the first `n` chunks each kept one was: exactly the long enough ones, in
      order, numbered by position. */
  ghost predicate KeptBefore(chunks: seq<ChunkData>, minSize: int, valid: seq<ChunkData>, origin: seq<nat>, n: nat)
    requires n <= |chunks|
  {
    && |origin| == |valid|
    && (forall i :: 0 <= i < |valid| ==> origin[i] < n && valid[i] == chunks[origin[i]].(index := i))
    && (forall i, j :: 0 <= i < j < |valid| ==> origin[i] < origin[j])
    && (forall c :: 0 <= c < n ==> (c in origin <==> |Strip(chunks[c].content)| >= minSize || |chunks| == 1))
  }

  /** Which chunks are kept, one by one: a chunk whose stripped text is at least the minimum long, or that
      is the only one, at the place of those kept before it, with that place as its number; no other. */
  lemma KeptAre(chunks: seq<ChunkData>, minSize: int, valid: seq<ChunkData>, origin: seq<nat>)
    requires KeptFrom(chunks, minSize, valid, origin)
    ensures forall c :: 0 <= c < |chunks| ==>
              (c in origin <==> |chunks| == 1 || |Strip(chunks[c].content)| >= minSize)
    ensures |origin| == |valid| && forall i :: 0 <= i < |valid| ==>
              && 0 <= origin[i] < |chunks| && valid[i].index == i
              && valid[i].content == chunks[origin[i]].content && valid[i].page == chunks[origin[i]].page
              && valid[i].header == chunks[origin[i]].header && valid[i].tokens == chunks[origin[i]].tokens
              && valid[i].start == chunks[origin[i]].start && valid[i].end == chunks[origin[i]].end
    ensures forall i, j :: 0 <= i < j < |valid| ==> origin[i] < origin[j]
  {
    hide Strip;
  }

  ghost predicate KeptFrom(chunks: seq<ChunkData>, minSize: int, valid: seq<ChunkData>, origin: seq<nat>) {
    KeptBefore(chunks, minSize, valid, origin, |chunks|)
  }

  ghost predicate NoneEmpty(splits: seq<string>) {
    forall i :: 0 <= i < |splits| ==> splits[i] != ""
  }

  /** The splitter's state after `i` parts. */
  ghost predicate Splitting(chunker: RecursiveChunker, text: string, separators: seq<string>, parts: seq<string>, i: nat,
                            splits: seq<string>, strands: seq<Strand>)
  {
    && separators != [] && i <= |parts|
    && Flatten(strands) + Rest(parts, separators[0], i) == text
    && Woven(Flatten(strands), splits, separators, strands)
    && NoneEmpty(splits)
    && ("" !in separators ==> chunker.Undivided(splits, separators))
  }

  /** What a part contributes. */
  ghost predicate PartSplit(chunker: RecursiveChunker, part: string, separators: seq<string>, sub: seq<string>,
                            subStrands: seq<Strand>)
    requires separators != []
  {
    && Woven(part, sub, separators[1..], subStrands)
    && NoneEmpty(sub)
    && ("" !in separators ==> chunker.Undivided(sub, separators))
  }

  lemma WholeText(chunker: RecursiveChunker, text: string, separators: seq<string>)
    ensures Woven(text, [text], separators, [Kept(text)])
    ensures text != "" ==> NoneEmpty([text])
    ensures separators == [] || chunker.countTokens(text) <= chunker.chunkSize ==> chunker.Undivided([text], separators)
  {
  }

  lemma SlicesWoven(text: string, splits: seq<string>, separators: seq<string>, strands: seq<Strand>)
    requires separators != [] && separators[0] == "" && Woven(text, splits, [], strands)
    ensures "" in separators && Woven(text, splits, separators, strands)
  {
  }

  lemma StartSplitting(chunker: RecursiveChunker, text: string, separators: seq<string>, parts: seq<string>)
    requires separators != [] && separators[0] != "" && parts == SplitOn(text, separators[0])
    ensures Splitting(chunker, text, separators, parts, 0, [], [])
  {
    hide Rest, SplitOn;
    SplitJoin(text, separators[0]);
  }

  lemma DoneSplitting(chunker: RecursiveChunker, text: string, separators: seq<string>, parts: seq<string>,
                      splits: seq<string>, strands: seq<Strand>)
    requires Splitting(chunker, text, separators, parts, |parts|, splits, strands)
    ensures Woven(text, splits, separators, strands) && NoneEmpty(splits)
    ensures "" !in separators ==> chunker.Undivided(splits, separators)
  {
  }

  lemma EmptyPart(chunker: RecursiveChunker, separators: seq<string>)
    requires separators != []
    ensures PartSplit(chunker, "", separators, [], [])
  {
  }

  lemma ShortPart(chunker: RecursiveChunker, part: string, separators: seq<string>)
    requires separators != [] && part != "" && chunker.countTokens(part) <= chunker.chunkSize
    ensures PartSplit(chunker, part, separators, [part], [Kept(part)])
  {
  }

  lemma LongPart(chunker: RecursiveChunker, text: string, separators: seq<string>, i: nat, sub: seq<string>,
                 subStrands: seq<Strand>)
    requires separators != [] && separators[0] != "" && i < |SplitOn(text, separators[0])|
    requires Woven(SplitOn(text, separators[0])[i], sub, separators[1..], subStrands) && NoneEmpty(sub)
    requires "" !in separators[1..] ==> chunker.Undivided(sub, separators[1..])
    ensures PartSplit(chunker, SplitOn(text, separators[0])[i], separators, sub, subStrands)
  {
    hide LacksAll, SplitOn, Woven;
    var part := SplitOn(text, separators[0])[i];
    if "" !in separators {
      PartsLackSeparator(text, separators[0], i);
      SubUndivided(part, separators, sub, subStrands);
    }
  }

  lemma PartStep(chunker: RecursiveChunker, text: string, separators: seq<string>, parts: seq<string>, i: nat,
                 splits: seq<string>, strands: seq<Strand>, sub: seq<string>, subStrands: seq<Strand>)
    requires Splitting(chunker, text, separators, parts, i, splits, strands) && i < |parts|
    requires PartSplit(chunker, parts[i], separators, sub, subStrands)
    ensures Splitting(chunker, text, separators, parts, i + 1, splits + sub,
                      strands + (if i > 0 then [Dropped(separators[0])] else []) + subStrands)
  {
    hide Woven, Rest, Flatten, LacksAll;
    AddPart(text, separators, separators[0], parts, i, splits, strands, sub, subStrands);
  }

  ghost predicate LacksAll(s: string, separators: seq<string>) {
    forall k :: 0 <= k < |separators| ==> !Contains(s, separators[k])
  }

  /** The merged texts are the windows' splits, joined by spaces. */
  ghost predicate Rendered(splits: seq<string>, windows: seq<Window>, merged: seq<string>) {
    && |merged| == |windows|
    && forall k :: 0 <= k < |windows| ==>
         windows[k].start <= windows[k].end <= |splits| && merged[k] == Spaced(splits[windows[k].start..windows[k].end])
  }

  lemma RenderedAppend(splits: seq<string>, windows: seq<Window>, merged: seq<string>, w: Window)
    requires Rendered(splits, windows, merged) && w.start <= w.end <= |splits|
    ensures Rendered(splits, windows + [w], merged + [Spaced(splits[w.start..w.end])])
  {
  }

  /** The merger's state after `i` splits: closed windows with their texts, and the open window with
      its splits and their token count. */
  ghost predicate Pending(chunker: RecursiveChunker, splits: seq<string>, windows: seq<Window>, merged: seq<string>,
                          start: nat, current: seq<string>, currentTokens: nat, i: nat)
  {
    && start <= i <= |splits|
    && Open(chunker, splits, windows, start, i)
    && current == splits[start..i]
    && currentTokens == Sum(Counts(chunker.countTokens, splits), start, i)
    && Rendered(splits, windows, merged)
  }

  ghost predicate Open(chunker: RecursiveChunker, splits: seq<string>, windows: seq<Window>, start: nat, i: nat)
    requires i <= |splits|
  {
    && (i == 0 ==> windows == [] && start == 0)
    && (i > 0 ==> start < i && Greedy(Counts(chunker.countTokens, splits), chunker.chunkSize, chunker.chunkOverlap,
                                      windows + [Window(start, i)], i))
  }

  lemma NothingPending(chunker: RecursiveChunker, splits: seq<string>)
    ensures Pending(chunker, splits, [], [], 0, [], 0, 0)
    ensures splits == [] ==> Rendered(splits, [], []) && Greedy(Counts(chunker.countTokens, splits), chunker.chunkSize, chunker.chunkOverlap, [], 0)
  {
  }

  lemma OpenTake(chunker: RecursiveChunker, splits: seq<string>, windows: seq<Window>, start: nat, i: nat)
    requires start <= i < |splits| && Open(chunker, splits, windows, start, i)
    requires i > 0 ==> Sum(Counts(chunker.countTokens, splits), start, i) + chunker.countTokens(splits[i]) <= chunker.chunkSize
    ensures Open(chunker, splits, windows, start, i + 1)
  {
    hide Greedy;
    var tokens := Counts(chunker.countTokens, splits);
    if i > 0 {
      GreedyTake(tokens, chunker.chunkSize, chunker.chunkOverlap, windows, Window(start, i), i);
    } else {
      GreedyFirst(tokens, chunker.chunkSize, chunker.chunkOverlap);
      assert windows + [Window(0, 1)] == [Window(0, 1)];
    }
  }

  lemma TakeSplit(chunker: RecursiveChunker, splits: seq<string>, windows: seq<Window>, merged: seq<string>,
                  start: nat, current: seq<string>, currentTokens: nat, i: nat)
    requires Pending(chunker, splits, windows, merged, start, current, currentTokens, i) && i < |splits|
    requires currentTokens + chunker.countTokens(splits[i]) <= chunker.chunkSize || current == []
    ensures Pending(chunker, splits, windows, merged, start, current + [splits[i]],
                    currentTokens + chunker.countTokens(splits[i]), i + 1)
  {
    hide Greedy, Rendered;
    OpenTake(chunker, splits, windows, start, i);
  }

  lemma FlushStep(chunker: RecursiveChunker, splits: seq<string>, windows: seq<Window>, merged: seq<string>,
                  start: nat, current: seq<string>, currentTokens: nat, i: nat, kept: seq<string>, keptTokens: nat, j: nat)
    requires Pending(chunker, splits, windows, merged, start, current, currentTokens, i) && i < |splits|
    requires currentTokens + chunker.countTokens(splits[i]) > chunker.chunkSize && current != []
    requires j <= |current| && kept == current[j..]
    requires keptTokens == Sum(Counts(chunker.countTokens, current), j, |current|)
    requires IsCarry(Counts(chunker.countTokens, current), chunker.chunkOverlap, Window(0, |current|), j)
    ensures Pending(chunker, splits, windows + [Window(start, i)], merged + [Spaced(current)], start + j,
                    kept + [splits[i]], keptTokens + chunker.countTokens(splits[i]), i + 1)
  {
    hide Greedy, Spaced, IsCarry, Rendered, Open;
    OpenFlush(chunker, splits, windows, start, i, j);
    SumShift(chunker.countTokens, splits, start, i, j, i - start);
    RenderedAppend(splits, windows, merged, Window(start, i));
    assert kept == splits[start + j..i];
  }

  lemma OpenFlush(chunker: RecursiveChunker, splits: seq<string>, windows: seq<Window>, start: nat, i: nat, j: nat)
    requires start < i < |splits| && Open(chunker, splits, windows, start, i) && j <= i - start
    requires Sum(Counts(chunker.countTokens, splits), start, i) + chunker.countTokens(splits[i]) > chunker.chunkSize
    requires IsCarry(Counts(chunker.countTokens, splits[start..i]), chunker.chunkOverlap, Window(0, i - start), j)
    ensures Open(chunker, splits, windows + [Window(start, i)], start + j, i + 1)
  {
    hide Greedy, IsCarry, Sum;
    CarryShift(chunker.countTokens, splits, chunker.chunkOverlap, start, i, j);
    GreedyFlush(Counts(chunker.countTokens, splits), chunker.chunkSize, chunker.chunkOverlap, windows, Window(start, i), i, start + j);
  }

  lemma LastWindow(chunker: RecursiveChunker, splits: seq<string>, windows: seq<Window>, merged: seq<string>,
                   start: nat, current: seq<string>, currentTokens: nat)
    requires Pending(chunker, splits, windows, merged, start, current, currentTokens, |splits|) && splits != []
    ensures Greedy(Counts(chunker.countTokens, splits), chunker.chunkSize, chunker.chunkOverlap,
                   windows + [Window(start, |splits|)], |splits|)
    ensures Rendered(splits, windows + [Window(start, |splits|)], merged + [Spaced(current)])
  {
    hide Greedy, Spaced, Rendered;
    RenderedAppend(splits, windows, merged, Window(start, |splits|));
  }

  /** One part, split or not, joins the strands with its separator. */
  lemma AddPart(text: string, separators: seq<string>, sep: string, parts: seq<string>, i: nat,
                splits: seq<string>, strands: seq<Strand>, sub: seq<string>, subStrands: seq<Strand>)
    requires separators != [] && sep == separators[0] && i < |parts|
    requires Flatten(strands) + Rest(parts, sep, i) == text
    requires Woven(Flatten(strands), splits, separators, strands)
    requires Woven(parts[i], sub, separators[1..], subStrands)
    ensures var next := strands + (if i > 0 then [Dropped(sep)] else []) + subStrands;
            && Flatten(next) + Rest(parts, sep, i + 1) == text
            && Woven(Flatten(next), splits + sub, separators, next)
  {
    hide Flatten, Pieces, Rest;
    var gap := if i > 0 then [Dropped(sep)] else [];
    var filler := if i > 0 then sep else "";
    GapText(sep, i);
    RestNext(parts, sep, i);
    StrandsAppend(strands, gap);
    StrandsAppend(strands + gap, subStrands);
    Regroup(Flatten(strands), filler, parts[i], Rest(parts, sep, i + 1));
    assert splits + [] + sub == splits + sub;
    hide Woven;
    WovenAppend(separators, splits, strands, gap, sub, subStrands);
  }

  lemma GapText(sep: string, i: nat)
    ensures Flatten(if i > 0 then [Dropped(sep)] else []) == if i > 0 then sep else ""
    ensures Pieces(if i > 0 then [Dropped(sep)] else []) == []
  {
  }

  lemma RestNext(parts: seq<string>, sep: string, i: nat)
    requires i < |parts|
    ensures Rest(parts, sep, i) == (if i > 0 then sep else "") + parts[i] + Rest(parts, sep, i + 1)
  {
  }

  lemma WovenAppend(separators: seq<string>, splits: seq<string>, strands: seq<Strand>, gap: seq<Strand>,
                    sub: seq<string>, subStrands: seq<Strand>)
    requires separators != [] && (gap == [] || gap == [Dropped(separators[0])])
    requires Woven(Flatten(strands), splits, separators, strands)
    requires Woven(Flatten(subStrands), sub, separators[1..], subStrands)
    requires Pieces(strands + gap + subStrands) == splits + sub
    ensures Woven(Flatten(strands + gap + subStrands), splits + sub, separators, strands + gap + subStrands)
  {
  }

  lemma Regroup(a: string, b: string, c: string, d: string)
    ensures a + (b + c + d) == a + b + c + d
  {
  }

  /** Pieces of a part without the first separator lack it too. */
  lemma SubUndivided(part: string, separators: seq<string>, sub: seq<string>, strands: seq<Strand>)
    requires separators != [] && !Contains(part, separators[0])
    requires Woven(part, sub, separators[1..], strands)
    ensures forall i :: 0 <= i < |sub| && LacksAll(sub[i], separators[1..]) ==> LacksAll(sub[i], separators)
  {
    forall i | 0 <= i < |sub| && LacksAll(sub[i], separators[1..])
      ensures LacksAll(sub[i], separators)
    {
      PieceWithin(strands, i);
      if Contains(sub[i], separators[0]) {
        ContainsTrans(part, sub[i], separators[0]);
      }
      assert forall k :: 0 < k < |separators| ==> separators[k] == separators[1..][k - 1];
    }
  }

  lemma NoEmptySeparator()
    ensures "" !in SEPARATORS
  {
  }

  lemma BlankText(text: string)
    ensures text == "" ==> Strip(text) == ""
  {
  }
}
