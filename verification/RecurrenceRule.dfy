/** Validation of the text of a recurrence rule (section 3.3.10 of RFC 5545, restricted). */
module RecurrenceRule {
  import opened Common
  import opened Text
  import opened Chunker

  datatype RuleError =
    | NotOneRule
    | InvalidComponent
    | DuplicateComponent(key: string)
    | UnsupportedComponent(key: string)
    | UnsupportedFrequency
    | IntervalNotAnInteger
    | CountNotAnInteger

  const SUPPORTED_FREQUENCIES := {"DAILY", "WEEKLY", "MONTHLY", "YEARLY"}
  const SUPPORTED_COMPONENTS := {"FREQ", "INTERVAL", "COUNT", "UNTIL", "BYDAY", "BYMONTHDAY", "BYMONTH", "WKST"}
  const LEADING := "FREQ="

  function UpperChar(c: char): char {
    if 'a' <= c <= 'z' then (c as int - 32) as char else c
  }

  function Upper(s: string): (r: string)
    ensures |r| == |s|
  {
    seq(|s|, i requires 0 <= i < |s| => UpperChar(s[i]))
  }

  /** `str(...).strip().upper()` */
  function Normalized(text: string): string {
    Upper(Strip(text))
  }

  predicate IsOneRule(value: string) {
    value != "" && '\n' !in value && '\r' !in value && LEADING <= value
  }

  // Components

  predicate HasKey(part: string) {
    Find(part, "=", 0).Some?
  }

  /** The text before the first equals sign. */
  function Key(part: string): string
    requires HasKey(part)
  {
    part[..Find(part, "=", 0).value]
  }

  function Value(part: string): string
    requires HasKey(part)
  {
    part[Find(part, "=", 0).value + 1..]
  }

  /** The dictionary built from components that all have a key. */
  function ReadParts(parts: seq<string>): map<string, string>
    requires forall i :: 0 <= i < |parts| ==> HasKey(parts[i])
  {
    if parts == [] then map[]
    else
      var last := parts[|parts| - 1];
      ReadParts(parts[..|parts| - 1])[Key(last) := Value(last)]
  }

  /** Every component has a supported key, and no key occurs twice. */
  predicate GoodParts(parts: seq<string>) {
    && (forall i :: 0 <= i < |parts| ==> HasKey(parts[i]) && Key(parts[i]) in SUPPORTED_COMPONENTS)
    && (forall i, j :: 0 <= i < j < |parts| ==> Key(parts[i]) != Key(parts[j]))
  }

  lemma {:induction false} ReadPartsEntries(parts: seq<string>)
    requires GoodParts(parts)
    ensures forall k :: k in ReadParts(parts) <==> exists i :: 0 <= i < |parts| && Key(parts[i]) == k
    ensures forall i :: 0 <= i < |parts| ==> Key(parts[i]) in ReadParts(parts) && ReadParts(parts)[Key(parts[i])] == Value(parts[i])
  {
    hide HasKey, Key, Value;
    if parts != [] {
      var n := |parts| - 1;
      var init := parts[..n];
      ReadPartsEntries(init);
      forall k | k in ReadParts(parts)
        ensures exists i :: 0 <= i < |parts| && Key(parts[i]) == k
      {
        if k in ReadParts(init) {
          var i :| 0 <= i < n && Key(init[i]) == k;
          assert Key(parts[i]) == k;
        } else {
          assert Key(parts[n]) == k;
        }
      }
      forall i | 0 <= i < |parts|
        ensures Key(parts[i]) in ReadParts(parts) && ReadParts(parts)[Key(parts[i])] == Value(parts[i])
      {
        if i < n {
          assert init[i] == parts[i];
        }
      }
    }
  }

  /** The first reason, reading from the left, why the components are refused. */
  function PartsFault(parts: seq<string>): (fault: Option<RuleError>)
    ensures fault.None? <==> GoodParts(parts)
  {
    if parts == [] then None
    else
      var n := |parts| - 1;
      var earlier := PartsFault(parts[..n]);
      if earlier.Some? then
        assert !GoodParts(parts) by {
          if GoodParts(parts) { assert GoodParts(parts[..n]); }
        }
        earlier
      else if !HasKey(parts[n]) then Some(InvalidComponent)
      else
        assert GoodParts(parts[..n]);
        assert forall i :: 0 <= i < n ==> parts[..n][i] == parts[i];
        var key := Key(parts[n]);
        if exists i :: 0 <= i < n && Key(parts[i]) == key then Some(DuplicateComponent(key))
        else if key !in SUPPORTED_COMPONENTS then Some(UnsupportedComponent(key))
        else None
  }

  // The whole rule

  /** A count: an integer of at least one, for the host's reading of integers. */
  predicate IsCount(parse: string -> Option<int>, text: string) {
    parse(text).Some? && parse(text).value >= 1
  }

  function ComponentsFault(parse: string -> Option<int>, components: map<string, string>): Option<RuleError> {
    if !("FREQ" in components && components["FREQ"] in SUPPORTED_FREQUENCIES) then Some(UnsupportedFrequency)
    else if !IsCount(parse, if "INTERVAL" in components then components["INTERVAL"] else "1") then Some(IntervalNotAnInteger)
    else if "COUNT" in components && !IsCount(parse, components["COUNT"]) then Some(CountNotAnInteger)
    else None
  }

  predicate Accepted(parse: string -> Option<int>, parts: seq<string>) {
    GoodParts(parts) && ComponentsFault(parse, ReadParts(parts)).None?
  }

  /** A whole rule, already stripped and in upper case, that passes every check. */
  predicate AcceptedRule(parse: string -> Option<int>, value: string) {
    IsOneRule(value) && Accepted(parse, SplitOn(value, ";"))
  }

  /** What the checks make of a rule, in their order. */
  function Outcome(parse: string -> Option<int>, value: string): (r: Result<map<string, string>, RuleError>)
    ensures r.Success? <==> AcceptedRule(parse, value)
  {
    var parts := SplitOn(value, ";");
    if !IsOneRule(value) then Failure(NotOneRule)
    else if PartsFault(parts).Some? then Failure(PartsFault(parts).value)
    else if ComponentsFault(parse, ReadParts(parts)).Some? then Failure(ComponentsFault(parse, ReadParts(parts)).value)
    else Success(ReadParts(parts))
  }

  /** The checks on a rule's text, in their order. */
  method ValidateRule(parse: string -> Option<int>, text: string) returns (r: Result<map<string, string>, RuleError>)
    ensures r == Outcome(parse, Normalized(text))
    ensures r.Success? <==> AcceptedRule(parse, Normalized(text))
  {
    hide SplitOn, HasKey, Key, Value, IsOneRule;
    var value := Normalized(text);
    if !IsOneRule(value) {
      return Failure(NotOneRule);
    }
    var parts := SplitOn(value, ";");
    var components: map<string, string> := map[];
    assert parts[..0] == [];
    for i := 0 to |parts|
      invariant PartsFault(parts[..i]).None? && components == ReadParts(parts[..i])
    {
      FaultStep(parts, i);
      if !HasKey(parts[i]) {
        EarlierFault(parts, i + 1);
        return Failure(InvalidComponent);
      }
      var key, componentValue := Key(parts[i]), Value(parts[i]);
      if key in components {
        EarlierFault(parts, i + 1);
        return Failure(DuplicateComponent(key));
      }
      if key !in SUPPORTED_COMPONENTS {
        EarlierFault(parts, i + 1);
        return Failure(UnsupportedComponent(key));
      }
      components := components[key := componentValue];
    }
    assert parts[..|parts|] == parts;
    if "FREQ" !in components || components["FREQ"] !in SUPPORTED_FREQUENCIES {
      return Failure(UnsupportedFrequency);
    }
    if !IsCount(parse, if "INTERVAL" in components then components["INTERVAL"] else "1") {
      return Failure(IntervalNotAnInteger);
    }
    if "COUNT" in components && !IsCount(parse, components["COUNT"]) {
      return Failure(CountNotAnInteger);
    }
    r := Success(components);
  }

  /** What the component after `i` good ones contributes. */
  lemma FaultStep(parts: seq<string>, i: nat)
    requires i < |parts| && PartsFault(parts[..i]).None?
    ensures GoodParts(parts[..i])
    ensures !HasKey(parts[i]) ==> PartsFault(parts[..i + 1]) == Some(InvalidComponent)
    ensures HasKey(parts[i]) ==>
      var key := Key(parts[i]);
      && (key in ReadParts(parts[..i]) ==> PartsFault(parts[..i + 1]) == Some(DuplicateComponent(key)))
      && (key !in ReadParts(parts[..i]) && key !in SUPPORTED_COMPONENTS ==>
            PartsFault(parts[..i + 1]) == Some(UnsupportedComponent(key)))
      && (key !in ReadParts(parts[..i]) && key in SUPPORTED_COMPONENTS ==>
            PartsFault(parts[..i + 1]).None? && ReadParts(parts[..i + 1]) == ReadParts(parts[..i])[key := Value(parts[i])])
  {
    hide HasKey, Key, Value;
    var before, after := parts[..i], parts[..i + 1];
    assert after[..i] == before && after[i] == parts[i];
    ReadPartsEntries(before);
    assert forall j :: 0 <= j < i ==> after[j] == before[j];
  }

  /** A fault among the first components is the fault of all of them. */
  lemma {:induction false} EarlierFault(parts: seq<string>, i: nat)
    requires i <= |parts| && PartsFault(parts[..i]).Some?
    ensures PartsFault(parts) == PartsFault(parts[..i])
    decreases |parts|
  {
    if i < |parts| {
      assert parts[..|parts| - 1][..i] == parts[..i];
      EarlierFault(parts[..|parts| - 1], i);
    } else {
      assert parts[..i] == parts;
    }
  }

  // The order of the components

  /** A permutation of good components is good and means the same. */
  lemma SameMeaning(a: seq<string>, b: seq<string>)
    requires multiset(a) == multiset(b) && GoodParts(a)
    ensures GoodParts(b) && ReadParts(a) == ReadParts(b)
  {
    hide HasKey, Key, Value, ReadParts;
    SameMembers(a, b);
    forall i | 0 <= i < |b|
      ensures HasKey(b[i]) && Key(b[i]) in SUPPORTED_COMPONENTS
    {
      assert b[i] in a;
    }
    forall i, j | 0 <= i < j < |b|
      ensures Key(b[i]) != Key(b[j])
    {
      KeysStayDistinct(a, b, i, j);
    }
    ReadPartsEntries(a);
    ReadPartsEntries(b);
    forall k
      ensures k in ReadParts(a) <==> k in ReadParts(b)
      ensures k in ReadParts(a) && k in ReadParts(b) ==> ReadParts(a)[k] == ReadParts(b)[k]
    {
      if k in ReadParts(a) {
        var i :| 0 <= i < |a| && Key(a[i]) == k;
        assert a[i] in b;
        var j :| 0 <= j < |b| && b[j] == a[i];
      }
      if k in ReadParts(b) {
        var j :| 0 <= j < |b| && Key(b[j]) == k;
        assert b[j] in a;
      }
    }
  }

  lemma KeysStayDistinct(a: seq<string>, b: seq<string>, i: nat, j: nat)
    requires multiset(a) == multiset(b) && GoodParts(a) && i < j < |b|
    requires (forall p :: p in a <==> p in b) && HasKey(b[i]) && HasKey(b[j])
    ensures Key(b[i]) != Key(b[j])
  {
    hide HasKey, Key;
    assert b[i] in a && b[j] in a;
    var x :| 0 <= x < |a| && a[x] == b[i];
    var y :| 0 <= y < |a| && a[y] == b[j];
    if b[i] == b[j] {
      TwoOccurrences(b, i, j);
      OneOccurrence(a, x);
    }
  }

  /** A rule's text from its components. */
  function Joined(parts: seq<string>): string {
    Rest(parts, ";", 0)
  }

  predicate NoSemicolons(parts: seq<string>) {
    forall i :: 0 <= i < |parts| ==> ';' !in parts[i]
  }

  /** Components without semicolons are read back from their text. */
  lemma {:induction false} JoinedSplits(parts: seq<string>)
    requires parts != [] && NoSemicolons(parts)
    ensures SplitOn(Joined(parts), ";") == parts
    decreases |parts|
  {
    hide Rest;
    var head, tail := parts[0], parts[1..];
    assert parts == [head] + tail;
    var text := Joined(parts);
    if tail == [] {
      assert parts == [head];
      RestOne(head, ";");
      FindNothing(head, ";");
    } else {
      RestCons(head, tail, ";");
      JoinedSplits(tail);
      FindsFirst(head, ";", Joined(tail));
      assert text[|head| + 1..] == Joined(tail) && text[..|head|] == head;
    }
  }

  lemma FindNothing(s: string, sep: string)
    requires |sep| == 1 && sep[0] !in s
    ensures Find(s, sep, 0).None?
  {
  }

  /** The first separator of a text whose start has none. */
  lemma FindsFirst(head: string, sep: string, rest: string)
    requires |sep| == 1 && sep[0] !in head
    ensures Find(head + (sep + rest), sep, 0) == Some(|head|)
  {
    var s := head + (sep + rest);
    assert s[|head|..|head| + 1] == sep;
    assert At(s, sep, |head|);
    forall i: nat | i < |head|
      ensures !At(s, sep, i)
    {
      assert s[i] == head[i];
    }
  }

  /** What a component written as `key=value` is read as. */
  lemma KeyIs(key: string, value: string)
    requires '=' !in key
    ensures var part := key + ("=" + value); HasKey(part) && Key(part) == key && Value(part) == value
  {
    FindsFirst(key, "=", value);
  }

  lemma PartsOfText(value: string)
    ensures NoSemicolons(SplitOn(value, ";"))
  {
    hide SplitOn, Find;
    var parts := SplitOn(value, ";");
    forall k | 0 <= k < |parts|
      ensures ';' !in parts[k]
    {
      PartsLackSeparator(value, ";", k);
      SemicolonContained(parts[k]);
    }
  }

  lemma SemicolonContained(s: string)
    ensures ';' in s ==> Contains(s, ";")
  {
    forall i: nat | i < |s| && s[i] == ';'
      ensures Contains(s, ";")
    {
      assert At(s, ";", i);
    }
  }

  /** Every character of the components is in the text, and no other but semicolons. */
  lemma {:induction false} RestChars(parts: seq<string>, i: nat, c: char)
    requires i <= |parts| && c != ';'
    ensures c in Rest(parts, ";", i) <==> exists j :: i <= j < |parts| && c in parts[j]
    decreases |parts| - i
  {
    if i < |parts| {
      RestChars(parts, i + 1, c);
    }
  }

  /** A rule's text starts with `FREQ=` exactly when its first component is the frequency. */
  lemma LeadingIsFirst(parts: seq<string>)
    requires parts != [] && NoSemicolons(parts)
    ensures LEADING <= Joined(parts) <==> HasKey(parts[0]) && Key(parts[0]) == "FREQ"
  {
    hide Find;
    var head := parts[0];
    assert Joined(parts) == head + Rest(parts, ";", 1);
    if LEADING <= head {
      assert head == "FREQ" + ("=" + head[5..]);
      KeyIs("FREQ", head[5..]);
    }
    if |head| < 5 && |parts| > 1 {
      assert Joined(parts)[|head|] == ';';
    }
  }

  /** The order of the components matters in one way only. If a rule is accepted, the same components
      in another order are accepted exactly when the frequency comes first, with the same dictionary. */
  lemma RuleOrder(parse: string -> Option<int>, value: string, b: seq<string>)
    requires AcceptedRule(parse, value) && multiset(b) == multiset(SplitOn(value, ";"))
    ensures b != []
    ensures AcceptedRule(parse, Joined(b)) <==> HasKey(b[0]) && Key(b[0]) == "FREQ"
    ensures SplitOn(Joined(b), ";") == b && GoodParts(b) && ReadParts(b) == ReadParts(SplitOn(value, ";"))
  {
    hide Accepted, Find, ReadParts, HasKey, Key;
    var a := SplitOn(value, ";");
    assert |multiset(a)| == |a| && |multiset(b)| == |b|;
    AcceptedMeans(parse, a);
    SameMeaning(a, b);
    AcceptedMeans(parse, b);
    PartsOfText(value);
    SameMembers(a, b);
    forall k | 0 <= k < |b|
      ensures ';' !in b[k]
    {
      assert b[k] in a;
    }
    JoinedSplits(b);
    LeadingIsFirst(b);
    NoLineBreaks(value, b, '\n');
    NoLineBreaks(value, b, '\r');
    JoinedNotEmpty(b);
  }

  /** The components with blanks taken off the end of the last. */
  function EndStripped(parts: seq<string>): seq<string>
    requires parts != []
  {
    parts[..|parts| - 1] + [StripRight(parts[|parts| - 1])]
  }

  /** Integers are read alike with and without blanks after them. */
  ghost predicate IgnoresBlanks(parse: string -> Option<int>) {
    forall t {:trigger StripRight(t)} :: parse(StripRight(t)) == parse(t)
  }

  /** On the texts themselves, which are stripped and put in upper case first. A reordered rule loses the
      blanks at its end, which changes its last component's value at most, and is then accepted exactly
      when the frequency comes first and that value passes its check; the frequency alone decides if no
      blanks are lost, or if they do not matter to the reading of integers. */
  lemma RuleTextOrder(parse: string -> Option<int>, text: string, b: seq<string>)
    requires AcceptedRule(parse, Normalized(text)) && multiset(b) == multiset(SplitOn(Normalized(text), ";"))
    ensures b != [] && GoodParts(b) && Joined(b) != ""
    ensures Normalized(Joined(b)) == Joined(b) <==> !IsSpace(Joined(b)[|Joined(b)| - 1])
    ensures Normalized(Joined(b)) == Joined(b) ==>
              (AcceptedRule(parse, Normalized(Joined(b))) <==> Key(b[0]) == "FREQ")
    ensures SplitOn(Normalized(Joined(b)), ";") == EndStripped(b) && GoodParts(EndStripped(b))
    ensures var last := b[|b| - 1];
            ReadParts(EndStripped(b)) ==
              ReadParts(SplitOn(Normalized(text), ";"))[Key(last) := StripRight(Value(last))]
    ensures AcceptedRule(parse, Normalized(Joined(b))) <==>
              Key(b[0]) == "FREQ" && ComponentsFault(parse, ReadParts(EndStripped(b))).None?
    ensures IgnoresBlanks(parse) ==>
              (AcceptedRule(parse, Normalized(Joined(b))) <==> Key(b[0]) == "FREQ")
  {
    hide *;
    var value := Normalized(text);
    RuleOrder(parse, value, b);
    KeysOfGood(b);
    JoinedNotEmpty(b);
    NoLeadingBlank(b);
    SameMembers(SplitOn(value, ";"), b);
    UpperIdempotent(Strip(text));
    NormalizedMeans(text);
    StaysUpper(value, b);
    NormalForm(Joined(b));
    BackToComponents(parse, value, b);
    StrippedText(b);
    StrippedParts(b);
    StrippedAccepted(parse, b);
    if IgnoresBlanks(parse) {
      StrippedFault(parse, b);
    }
  }

  lemma KeysOfGood(parts: seq<string>)
    requires GoodParts(parts)
    ensures forall i :: 0 <= i < |parts| ==> HasKey(parts[i])
  {
  }

  /** What `RuleOrder` leaves to the stripped text: components without semicolons or line breaks, and
      a dictionary that passes. */
  lemma BackToComponents(parse: string -> Option<int>, value: string, b: seq<string>)
    requires AcceptedRule(parse, value) && GoodParts(b) && ReadParts(b) == ReadParts(SplitOn(value, ";"))
    requires forall p :: p in b <==> p in SplitOn(value, ";")
    ensures NoSemicolons(b) && NoBreaks(b)
    ensures ComponentsFault(parse, ReadParts(b)).None?
  {
    hide SplitOn, ReadParts, ComponentsFault, Joined;
    PartsOfText(value);
    NoLineBreaks(value, b, '\n');
    NoLineBreaks(value, b, '\r');
    forall k | 0 <= k < |b|
      ensures ';' !in b[k] && '\n' !in b[k] && '\r' !in b[k]
    {
      assert b[k] in SplitOn(value, ";");
      BreakInPart(b, k, '\n');
      BreakInPart(b, k, '\r');
    }
  }

  predicate NoBreaks(parts: seq<string>) {
    forall i :: 0 <= i < |parts| ==> '\n' !in parts[i] && '\r' !in parts[i]
  }

  lemma BreakInPart(parts: seq<string>, k: nat, c: char)
    requires k < |parts| && c != ';' && c !in Joined(parts)
    ensures c !in parts[k]
  {
    RestChars(parts, 0, c);
  }

  // The end of a text

  lemma {:induction false} StripRightIsPrefix(s: string)
    ensures StripRight(s) <= s
  {
    if s != "" {
      StripRightIsPrefix(s[..|s| - 1]);
    }
  }

  /** Stripping stops before what does not end in a blank. */
  lemma {:induction false} StripRightAppend(x: string, y: string)
    requires x != "" && !IsSpace(x[|x| - 1])
    ensures StripRight(x + y) == x + StripRight(y)
    decreases |y|
  {
    hide IsSpace;
    if y == "" {
      assert x + y == x;
    } else {
      assert (x + y)[..|x + y| - 1] == x + y[..|y| - 1];
      StripRightAppend(x, y[..|y| - 1]);
    }
  }

  lemma KeyEnd(part: string)
    requires HasKey(part)
    ensures part == Key(part) + ("=" + Value(part)) && '=' !in Key(part)
  {
    var key := Key(part);
    assert At(part, "=", |key|);
    forall i: nat | i < |key|
      ensures key[i] != '='
    {
      assert !At(part, "=", i);
      assert part[i..i + 1] == [key[i]];
    }
  }

  /** A component keeps its key, and its value loses the blanks. */
  lemma StrippedPart(part: string)
    requires HasKey(part)
    ensures StripRight(part) == Key(part) + ("=" + StripRight(Value(part)))
    ensures HasKey(StripRight(part)) && Key(StripRight(part)) == Key(part)
    ensures Value(StripRight(part)) == StripRight(Value(part))
  {
    hide HasKey, Key, Value, StripRight;
    KeyEnd(part);
    var head := Key(part) + "=";
    assert part == head + Value(part);
    StripRightAppend(head, Value(part));
    assert head + StripRight(Value(part)) == Key(part) + ("=" + StripRight(Value(part)));
    KeyIs(Key(part), StripRight(Value(part)));
  }

  lemma {:induction false} JoinedLast(init: seq<string>, last: string)
    ensures Joined(init + [last]) == (if init == [] then "" else Joined(init) + ";") + last
  {
    hide Rest;
    if init == [] {
      assert init + [last] == [last];
      RestOne(last, ";");
    } else {
      var head, tail := init[0], init[1..];
      assert init == [head] + tail;
      assert init + [last] == [head] + (tail + [last]);
      RestCons(head, tail + [last], ";");
      JoinedLast(tail, last);
      if tail == [] {
        assert init == [head];
        RestOne(head, ";");
      } else {
        RestCons(head, tail, ";");
      }
    }
  }

  /** What stripping does to the text of components. */
  lemma StrippedText(b: seq<string>)
    requires b != [] && GoodParts(b) && Upper(Joined(b)) == Joined(b)
    ensures Normalized(Joined(b)) == Joined(EndStripped(b))
  {
    hide *;
    KeysOfGood(b);
    NoLeadingBlank(b);
    StripLeftKeeps(Joined(b));
    var n := |b| - 1;
    var init, last := b[..n], b[n];
    assert b == init + [last];
    var before := if init == [] then "" else Joined(init) + ";";
    JoinedLast(init, last);
    JoinedLast(init, StripRight(last));
    EndStrippedIs(init, last);
    KeyEnd(last);
    StrippedPart(last);
    var x := before + Key(last) + "=";
    assert x != "" && x[|x| - 1] == '=';
    EqualsNoSpace();
    assert Joined(b) == x + Value(last);
    StripRightAppend(x, Value(last));
    assert Joined(EndStripped(b)) == x + StripRight(Value(last));
    StripRightIsPrefix(Joined(b));
    UpperPrefix(Joined(b), StripRight(Joined(b)));
    NormalizedMeans(Joined(b));
  }

  lemma EqualsNoSpace()
    ensures !IsSpace('=')
  {
  }

  lemma EndStrippedIs(init: seq<string>, last: string)
    ensures EndStripped(init + [last]) == init + [StripRight(last)]
  {
    assert (init + [last])[..|init|] == init;
  }

  lemma StripLeftKeeps(s: string)
    requires s != "" && !IsSpace(s[0])
    ensures Strip(s) == StripRight(s)
  {
  }

  lemma UpperPrefix(s: string, prefix: string)
    requires Upper(s) == s && prefix <= s
    ensures Upper(prefix) == prefix
  {
    forall i | 0 <= i < |prefix|
      ensures UpperChar(prefix[i]) == prefix[i]
    {
      assert Upper(s)[i] == UpperChar(s[i]);
    }
  }

  /** The stripped components are good and read back; only the last value changes. */
  lemma StrippedParts(b: seq<string>)
    requires b != [] && GoodParts(b) && NoSemicolons(b) && NoBreaks(b)
    ensures HasKey(b[|b| - 1])
    ensures GoodParts(EndStripped(b)) && NoSemicolons(EndStripped(b)) && NoBreaks(EndStripped(b))
    ensures SplitOn(Joined(EndStripped(b)), ";") == EndStripped(b)
    ensures Key(EndStripped(b)[0]) == Key(b[0])
    ensures ReadParts(EndStripped(b)) == ReadParts(b)[Key(b[|b| - 1]) := StripRight(Value(b[|b| - 1]))]
  {
    hide *;
    var n := |b| - 1;
    var init, last := b[..n], b[n];
    assert b == init + [last];
    KeysOfGood(b);
    EndStrippedIs(init, last);
    StrippedPart(last);
    StripRightIsPrefix(last);
    LastReplaced(init, last, StripRight(last));
    LastClean(init, last, StripRight(last));
    JoinedSplits(EndStripped(b));
  }

  /** Another last component with the same key. */
  lemma LastReplaced(init: seq<string>, last: string, other: string)
    requires GoodParts(init + [last]) && HasKey(last) && HasKey(other) && Key(other) == Key(last)
    ensures GoodParts(init + [other])
    ensures Key((init + [other])[0]) == Key((init + [last])[0])
    ensures ReadParts(init + [other]) == ReadParts(init + [last])[Key(last) := Value(other)]
  {
    hide HasKey, Key, Value;
    var a, b := init + [last], init + [other];
    assert a[..|init|] == init && b[..|init|] == init && a[|init|] == last && b[|init|] == other;
    forall i | 0 <= i < |b|
      ensures HasKey(b[i]) && Key(b[i]) == Key(a[i])
    {
      assert i < |init| ==> b[i] == a[i];
    }
  }

  lemma LastClean(init: seq<string>, last: string, prefix: string)
    requires NoSemicolons(init + [last]) && NoBreaks(init + [last]) && prefix <= last
    ensures NoSemicolons(init + [prefix]) && NoBreaks(init + [prefix])
  {
    var a, b := init + [last], init + [prefix];
    assert a[|init|] == last && b[|init|] == prefix;
    forall i | 0 <= i < |b|
      ensures b[i] <= a[i]
    {
      assert i < |init| ==> b[i] == a[i];
    }
  }

  lemma StrippedAccepted(parse: string -> Option<int>, b: seq<string>)
    requires b != [] && GoodParts(b) && NoSemicolons(b) && NoBreaks(b)
    requires Normalized(Joined(b)) == Joined(EndStripped(b))
    ensures GoodParts(EndStripped(b))
    ensures AcceptedRule(parse, Normalized(Joined(b))) <==>
              Key(b[0]) == "FREQ" && ComponentsFault(parse, ReadParts(EndStripped(b))).None?
  {
    hide *;
    var c := EndStripped(b);
    StrippedParts(b);
    KeysOfGood(c);
    KeysOfGood(b);
    NotEmpty(b);
    JoinedNotEmpty(c);
    LeadingIsFirst(c);
    AcceptedMeans(parse, c);
    NoBreaksJoined(c);
    RuleMeans(parse, Joined(c));
  }

  lemma NotEmpty(b: seq<string>)
    requires b != []
    ensures EndStripped(b) != []
  {
  }

  lemma NoBreaksJoined(parts: seq<string>)
    requires NoBreaks(parts)
    ensures '\n' !in Joined(parts) && '\r' !in Joined(parts)
  {
    RestChars(parts, 0, '\n');
    RestChars(parts, 0, '\r');
  }

  lemma RuleMeans(parse: string -> Option<int>, value: string)
    ensures AcceptedRule(parse, value) <==>
              && value != "" && '\n' !in value && '\r' !in value && LEADING <= value
              && Accepted(parse, SplitOn(value, ";"))
  {
  }

  /** Blanks that do not matter to integers do not matter to the checks. */
  lemma StrippedFault(parse: string -> Option<int>, b: seq<string>)
    requires IgnoresBlanks(parse) && b != [] && GoodParts(b) && NoSemicolons(b) && NoBreaks(b)
    requires GoodParts(EndStripped(b)) && ComponentsFault(parse, ReadParts(b)).None?
    ensures ComponentsFault(parse, ReadParts(EndStripped(b))).None?
  {
    hide *;
    StrippedParts(b);
    KeysOfGood(b);
    KeysOfGood(EndStripped(b));
    ReadPartsEntries(b);
    assert ReadParts(b)[Key(b[|b| - 1])] == Value(b[|b| - 1]);
    BlanksDoNotMatter(parse, ReadParts(b), Key(b[|b| - 1]));
  }

  lemma BlanksDoNotMatter(parse: string -> Option<int>, components: map<string, string>, key: string)
    requires IgnoresBlanks(parse) && key in components && ComponentsFault(parse, components).None?
    ensures ComponentsFault(parse, components[key := StripRight(components[key])]).None?
  {
    hide StripRight;
    if key == "FREQ" {
      FrequencyTrimmed(components[key]);
    }
    assert parse(StripRight(components[key])) == parse(components[key]);
  }

  lemma FrequencyTrimmed(frequency: string)
    requires frequency in SUPPORTED_FREQUENCIES
    ensures StripRight(frequency) == frequency
  {
    assert frequency[|frequency| - 1] == 'Y';
  }

  lemma NormalizedMeans(text: string)
    ensures Normalized(text) == Upper(Strip(text))
  {
  }

  lemma UpperIdempotent(s: string)
    ensures Upper(Upper(s)) == Upper(s)
  {
  }

  /** A text in upper case without a leading blank is its own normal form unless it ends in one. */
  lemma NormalForm(s: string)
    requires s != "" && !IsSpace(s[0]) && Upper(s) == s
    ensures Normalized(s) == s <==> !IsSpace(s[|s| - 1])
  {
    hide IsSpace, Upper;
    assert StripLeft(s) == s;
    if IsSpace(s[|s| - 1]) {
      ShorterStripped(s);
      assert |Upper(Strip(s))| == |Strip(s)|;
    }
  }

  lemma {:induction false} ShorterStripped(s: string)
    ensures |StripRight(s)| <= |s|
    ensures s != "" && IsSpace(s[|s| - 1]) ==> |StripRight(s)| < |s|
  {
    if s != "" {
      ShorterStripped(s[..|s| - 1]);
    }
  }

  /** Supported keys start with a letter. */
  lemma NoLeadingBlank(parts: seq<string>)
    requires GoodParts(parts) && parts != []
    ensures Joined(parts) != "" && !IsSpace(Joined(parts)[0])
  {
    hide Find;
    var key := Key(parts[0]);
    assert key in SUPPORTED_COMPONENTS;
    assert key != "" && !IsSpace(key[0]);
    assert Joined(parts) == parts[0] + Rest(parts, ";", 1);
  }

  lemma StaysUpper(value: string, b: seq<string>)
    requires Upper(value) == value && forall p :: p in b ==> p in SplitOn(value, ";")
    ensures Upper(Joined(b)) == Joined(b)
  {
    hide SplitOn, Rest;
    var s := Joined(b);
    SplitJoin(value, ";");
    forall i | 0 <= i < |s|
      ensures UpperChar(s[i]) == s[i]
    {
      if s[i] != ';' {
        RestChars(b, 0, s[i]);
        RestChars(SplitOn(value, ";"), 0, s[i]);
        var j :| 0 <= j < |b| && s[i] in b[j];
        assert b[j] in SplitOn(value, ";");
        assert s[i] in value;
        UpperMember(value, s[i]);
      }
    }
    assert Upper(s) == s;
  }

  lemma UpperMember(s: string, c: char)
    requires Upper(s) == s && c in s
    ensures UpperChar(c) == c
  {
    var i :| 0 <= i < |s| && s[i] == c;
    assert Upper(s)[i] == UpperChar(c);
  }

  lemma AcceptedMeans(parse: string -> Option<int>, parts: seq<string>)
    ensures Accepted(parse, parts) <==> GoodParts(parts) && ComponentsFault(parse, ReadParts(parts)).None?
  {
  }

  lemma NoLineBreaks(value: string, b: seq<string>, c: char)
    requires c != ';' && c !in value && forall p :: p in b ==> p in SplitOn(value, ";")
    ensures c !in Joined(b)
  {
    hide SplitOn, Rest;
    var a := SplitOn(value, ";");
    SplitJoin(value, ";");
    RestChars(a, 0, c);
    RestChars(b, 0, c);
    forall k | 0 <= k < |b|
      ensures c !in b[k]
    {
      assert b[k] in a;
    }
  }

  lemma JoinedNotEmpty(parts: seq<string>)
    requires GoodParts(parts) && parts != []
    ensures Joined(parts) != ""
  {
    assert At(parts[0], "=", Find(parts[0], "=", 0).value);
    assert |parts[0]| > 0;
    assert Joined(parts) == parts[0] + Rest(parts, ";", 1);
  }

  const DAILY_TWICE := "FREQ=DAILY;INTERVAL=2"
  const TWICE_DAILY := "INTERVAL=2;FREQ=DAILY"

  /** A daily rule with one number. */
  function Daily(key: string, number: string): string {
    "FREQ=DAILY;" + key + "=" + number
  }

  /** Two components, the frequency first. */
  lemma TwoComponents(key: string, number: string)
    requires key == "INTERVAL" || key == "COUNT"
    requires ';' !in number && '\n' !in number && '\r' !in number
    ensures var parts := SplitOn(Daily(key, number), ";");
            && IsOneRule(Daily(key, number)) && GoodParts(parts)
            && ReadParts(parts).Keys == {"FREQ", key}
            && ReadParts(parts)["FREQ"] == "DAILY" && ReadParts(parts)[key] == number
  {
    hide *;
    var first, second := "FREQ" + ("=" + "DAILY"), key + ("=" + number);
    KeyIs("FREQ", "DAILY");
    KeyIs(key, number);
    TwoJoined(first, second);
    DailyIs(key, number);
    TwoNoSemicolons(first, second);
    JoinedSplits([first, second]);
    TwoRead(key, first, second);
    OneRule(key, number);
  }

  lemma DailyIs(key: string, number: string)
    ensures Daily(key, number) == ("FREQ" + ("=" + "DAILY")) + (";" + (key + ("=" + number)))
  {
  }

  lemma TwoNoSemicolons(first: string, second: string)
    requires ';' !in first && ';' !in second
    ensures NoSemicolons([first, second])
  {
  }

  lemma TwoRead(key: string, first: string, second: string)
    requires key == "INTERVAL" || key == "COUNT"
    requires HasKey(first) && Key(first) == "FREQ" && HasKey(second) && Key(second) == key
    ensures var parts := [first, second];
            && GoodParts(parts)
            && ReadParts(parts).Keys == {"FREQ", key}
            && ReadParts(parts)["FREQ"] == Value(first) && ReadParts(parts)[key] == Value(second)
  {
    hide HasKey, Key, Value, ReadParts;
    var parts := [first, second];
    assert "FREQ" != key by {
      assert |"FREQ"| == 4 && |"INTERVAL"| == 8 && |"COUNT"| == 5;
    }
    assert GoodParts(parts);
    ReadPartsEntries(parts);
    forall k
      ensures k in ReadParts(parts) <==> k == "FREQ" || k == key
    {
      assert Key(parts[0]) == "FREQ" && Key(parts[1]) == key;
    }
  }

  lemma OneRule(key: string, number: string)
    requires key == "INTERVAL" || key == "COUNT"
    requires '\n' !in number && '\r' !in number
    ensures IsOneRule(Daily(key, number))
  {
  }

  lemma TwoJoined(first: string, second: string)
    ensures Joined([first, second]) == first + (";" + second)
  {
    RestCons(first, [second], ";");
    RestOne(second, ";");
    assert [first] + [second] == [first, second];
  }

  /** A daily rule with an interval is accepted exactly when the interval is a count. */
  lemma DailyWithInterval(parse: string -> Option<int>, number: string)
    requires ';' !in number && '\n' !in number && '\r' !in number
    ensures AcceptedRule(parse, Daily("INTERVAL", number)) <==> IsCount(parse, number)
  {
    hide IsOneRule, SplitOn, ReadParts, HasKey, Key, GoodParts, Daily, IsCount;
    TwoComponents("INTERVAL", number);
    assert "COUNT" !in {"FREQ", "INTERVAL"} by {
      assert |"FREQ"| == 4 && |"INTERVAL"| == 8 && |"COUNT"| == 5;
    }
  }

  lemma NotLeading(parse: string -> Option<int>)
    ensures !AcceptedRule(parse, TWICE_DAILY)
  {
    hide SplitOn, Accepted;
    assert TWICE_DAILY[0] != LEADING[0];
  }

  lemma DailyTwiceIs()
    ensures DAILY_TWICE == Daily("INTERVAL", "2")
  {
  }

  /** The same two components are a rule in one order and none in the other. */
  lemma OrderExample(parse: string -> Option<int>)
    requires parse("2") == Some(2)
    ensures AcceptedRule(parse, DAILY_TWICE) && !AcceptedRule(parse, TWICE_DAILY)
  {
    hide AcceptedRule, Daily;
    NotLeading(parse);
    DailyTwiceIs();
    DailyWithInterval(parse, "2");
  }

  // Numbers that are too small

  /** An interval that is an integer is reported as not an integer exactly when it is below one. */
  lemma SmallIntervalMisreported(parse: string -> Option<int>, value: string, n: int)
    requires IsOneRule(value) && GoodParts(SplitOn(value, ";"))
    requires var c := ReadParts(SplitOn(value, ";"));
             && "FREQ" in c && c["FREQ"] in SUPPORTED_FREQUENCIES
             && "INTERVAL" in c && parse(c["INTERVAL"]) == Some(n)
    ensures Outcome(parse, value) == Failure(IntervalNotAnInteger) <==> n < 1
  {
    hide SplitOn, ReadParts, GoodParts;
  }

  /** The same for a count, once the interval is in order. */
  lemma SmallCountMisreported(parse: string -> Option<int>, value: string, n: int)
    requires IsOneRule(value) && GoodParts(SplitOn(value, ";"))
    requires var c := ReadParts(SplitOn(value, ";"));
             && "FREQ" in c && c["FREQ"] in SUPPORTED_FREQUENCIES
             && IsCount(parse, if "INTERVAL" in c then c["INTERVAL"] else "1")
             && "COUNT" in c && parse(c["COUNT"]) == Some(n)
    ensures Outcome(parse, value) == Failure(CountNotAnInteger) <==> n < 1
  {
    hide SplitOn, ReadParts, GoodParts;
  }

  /** Zero is an integer, but not to these checks. */
  lemma ZeroExamples(parse: string -> Option<int>)
    requires parse("0") == Some(0) && parse("1") == Some(1)
    ensures Outcome(parse, "FREQ=DAILY;INTERVAL=0") == Failure(IntervalNotAnInteger)
    ensures Outcome(parse, "FREQ=DAILY;COUNT=0") == Failure(CountNotAnInteger)
  {
    hide *;
    ZeroTexts();
    ZeroInterval(parse);
    ZeroCount(parse);
  }

  lemma ZeroTexts()
    ensures "FREQ=DAILY;INTERVAL=0" == Daily("INTERVAL", "0")
    ensures "FREQ=DAILY;COUNT=0" == Daily("COUNT", "0")
  {
  }

  lemma ZeroInterval(parse: string -> Option<int>)
    requires parse("0") == Some(0)
    ensures Outcome(parse, Daily("INTERVAL", "0")) == Failure(IntervalNotAnInteger)
  {
    hide IsOneRule, SplitOn, ReadParts, HasKey, Key, GoodParts, Daily, Outcome;
    TwoComponents("INTERVAL", "0");
    SmallIntervalMisreported(parse, Daily("INTERVAL", "0"), 0);
  }

  lemma ZeroCount(parse: string -> Option<int>)
    requires parse("0") == Some(0) && parse("1") == Some(1)
    ensures Outcome(parse, Daily("COUNT", "0")) == Failure(CountNotAnInteger)
  {
    hide IsOneRule, SplitOn, ReadParts, HasKey, Key, GoodParts, Daily, Outcome, IsCount;
    TwoComponents("COUNT", "0");
    CountAlone(parse, "0");
    SmallCountMisreported(parse, Daily("COUNT", "0"), 0);
  }

  lemma CountAlone(parse: string -> Option<int>, number: string)
    requires parse("1") == Some(1)
    requires IsOneRule(Daily("COUNT", number)) && GoodParts(SplitOn(Daily("COUNT", number), ";"))
    requires ReadParts(SplitOn(Daily("COUNT", number), ";")).Keys == {"FREQ", "COUNT"}
    ensures var c := ReadParts(SplitOn(Daily("COUNT", number), ";"));
            IsCount(parse, if "INTERVAL" in c then c["INTERVAL"] else "1")
  {
    hide *;
    assert "INTERVAL" !in {"FREQ", "COUNT"} by {
      assert |"FREQ"| == 4 && |"INTERVAL"| == 8 && |"COUNT"| == 5;
    }
    OneIsCount(parse);
  }

  lemma OneIsCount(parse: string -> Option<int>)
    requires parse("1") == Some(1)
    ensures IsCount(parse, "1")
  {
  }
}
