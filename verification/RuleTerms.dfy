/** Which rule texts are accepted, in terms of `key=value` components alone. */
module RuleTerms {
  import opened Common
  import opened Text
  import opened Chunker
  import opened RecurrenceRule

  /** A text written as components `key=value` joined by semicolons. */
  predicate IsWritten(value: string, keys: seq<string>, values: seq<string>) {
    && |keys| == |values| && keys != []
    && (forall i :: 0 <= i < |keys| ==> '=' !in keys[i] && ';' !in keys[i] && ';' !in values[i])
    && value == Joined(Components(keys, values))
  }

  function Components(keys: seq<string>, values: seq<string>): (parts: seq<string>)
    requires |keys| == |values|
    ensures |parts| == |keys| && forall i :: 0 <= i < |keys| ==> parts[i] == keys[i] + ("=" + values[i])
  {
    seq(|keys|, i requires 0 <= i < |keys| => keys[i] + ("=" + values[i]))
  }

  /** Known keys, none twice, the frequency first and one of four, and numbers of at least one. */
  predicate IsGood(parse: string -> Option<int>, keys: seq<string>, values: seq<string>) {
    && |keys| == |values| && keys != [] && keys[0] == "FREQ" && values[0] in {"DAILY", "WEEKLY", "MONTHLY", "YEARLY"}
    && (forall i, j :: 0 <= i < j < |keys| ==> keys[i] != keys[j])
    && (forall i :: 0 <= i < |keys| ==>
          keys[i] in {"FREQ", "INTERVAL", "COUNT", "UNTIL", "BYDAY", "BYMONTHDAY", "BYMONTH", "WKST"})
    && forall i :: 0 <= i < |keys| && (keys[i] == "INTERVAL" || keys[i] == "COUNT") ==>
         parse(values[i]).Some? && parse(values[i]).value >= 1
  }

  lemma Split(value: string, keys: seq<string>, values: seq<string>)
    requires IsWritten(value, keys, values)
    ensures var parts := Components(keys, values);
            && SplitOn(value, ";") == parts
            && forall i :: 0 <= i < |keys| ==>
                 HasKey(parts[i]) && Key(parts[i]) == keys[i] && Value(parts[i]) == values[i]
  {
    hide SplitOn, HasKey, Key, Value, Joined;
    var parts := Components(keys, values);
    JoinedSplits(parts);
    forall i | 0 <= i < |keys|
      ensures HasKey(parts[i]) && Key(parts[i]) == keys[i] && Value(parts[i]) == values[i]
    {
      KeyIs(keys[i], values[i]);
    }
  }

  /** A dictionary's entries are the components. */
  ghost predicate Holds(d: map<string, string>, keys: seq<string>, values: seq<string>) {
    && |keys| == |values|
    && (forall k :: k in d <==> exists i :: 0 <= i < |keys| && keys[i] == k)
    && forall i :: 0 <= i < |keys| ==> keys[i] in d && d[keys[i]] == values[i]
  }

  predicate KnownKeys(keys: seq<string>) {
    && (forall i, j :: 0 <= i < j < |keys| ==> keys[i] != keys[j])
    && forall i :: 0 <= i < |keys| ==>
         keys[i] in {"FREQ", "INTERVAL", "COUNT", "UNTIL", "BYDAY", "BYMONTHDAY", "BYMONTH", "WKST"}
  }

  ghost predicate ReadAs(parts: seq<string>, keys: seq<string>, values: seq<string>) {
    && |parts| == |keys| == |values|
    && forall i :: 0 <= i < |keys| ==>
         HasKey(parts[i]) && Key(parts[i]) == keys[i] && Value(parts[i]) == values[i]
  }

  lemma GoodPartsIs(parts: seq<string>, keys: seq<string>, values: seq<string>)
    requires ReadAs(parts, keys, values)
    ensures GoodParts(parts) <==> KnownKeys(keys)
  {
    hide HasKey, Key, Value;
  }

  lemma EntriesHold(parts: seq<string>, keys: seq<string>, values: seq<string>)
    requires ReadAs(parts, keys, values) && GoodParts(parts)
    ensures Holds(ReadParts(parts), keys, values)
  {
    hide HasKey, Key, Value, ReadParts;
    ReadPartsEntries(parts);
    var d := ReadParts(parts);
    forall k | k in d
      ensures exists i :: 0 <= i < |keys| && keys[i] == k
    {
      var i :| 0 <= i < |parts| && Key(parts[i]) == k;
      assert keys[i] == k;
    }
    forall i | 0 <= i < |keys|
      ensures keys[i] in d && d[keys[i]] == values[i]
    {
      assert Key(parts[i]) == keys[i];
    }
  }

  /** The frequency is one of four, and the numbers are at least one. */
  predicate GoodValues(parse: string -> Option<int>, keys: seq<string>, values: seq<string>)
    requires |keys| == |values|
  {
    && (exists i :: 0 <= i < |keys| && keys[i] == "FREQ" && values[i] in {"DAILY", "WEEKLY", "MONTHLY", "YEARLY"})
    && forall i :: 0 <= i < |keys| && (keys[i] == "INTERVAL" || keys[i] == "COUNT") ==>
         parse(values[i]).Some? && parse(values[i]).value >= 1
  }

  lemma FaultOfEntries(parse: string -> Option<int>, d: map<string, string>, keys: seq<string>, values: seq<string>)
    requires |keys| == |values| && Holds(d, keys, values) && parse("1") == Some(1)
    ensures ComponentsFault(parse, d).None? <==> GoodValues(parse, keys, values)
  {
    if "INTERVAL" in d {
      var i :| 0 <= i < |keys| && keys[i] == "INTERVAL";
      assert d[keys[i]] == values[i];
    }
    if "COUNT" in d {
      var i :| 0 <= i < |keys| && keys[i] == "COUNT";
      assert d[keys[i]] == values[i];
    }
    if "FREQ" in d {
      var i :| 0 <= i < |keys| && keys[i] == "FREQ";
      assert d[keys[i]] == values[i];
    }
  }

  lemma GoodIs(parse: string -> Option<int>, keys: seq<string>, values: seq<string>)
    requires |keys| == |values| && keys != []
    ensures IsGood(parse, keys, values) <==> keys[0] == "FREQ" && KnownKeys(keys) && GoodValues(parse, keys, values)
  {
    if keys[0] == "FREQ" && KnownKeys(keys) && GoodValues(parse, keys, values) {
      var i :| 0 <= i < |keys| && keys[i] == "FREQ" && values[i] in {"DAILY", "WEEKLY", "MONTHLY", "YEARLY"};
      assert i == 0;
    }
  }

  /** A text without line breaks is accepted exactly when its components are good, and then the
      dictionary holds just them, as long as "1" is read as 1. */
  lemma WrittenRule(parse: string -> Option<int>, value: string, keys: seq<string>, values: seq<string>)
    requires IsWritten(value, keys, values) && '\n' !in value && '\r' !in value && parse("1") == Some(1)
    ensures AcceptedRule(parse, value) <==> IsGood(parse, keys, values)
    ensures IsGood(parse, keys, values) ==>
              Outcome(parse, value).Success? && Holds(Outcome(parse, value).value, keys, values)
  {
    hide *;
    WrittenIs(value, keys, values);
    var parts := Components(keys, values);
    Split(value, keys, values);
    AreReadAs(parts, keys, values);
    LeadingIsFirst(parts);
    GoodPartsIs(parts, keys, values);
    if GoodParts(parts) {
      KeysOfGood(parts);
      EntriesHold(parts, keys, values);
      FaultOfEntries(parse, ReadParts(parts), keys, values);
    }
    RuleIs(parse, value);
    GoodIs(parse, keys, values);
  }

  lemma AreReadAs(parts: seq<string>, keys: seq<string>, values: seq<string>)
    requires |keys| == |values| == |parts|
    requires forall i :: 0 <= i < |keys| ==>
               HasKey(parts[i]) && Key(parts[i]) == keys[i] && Value(parts[i]) == values[i]
    ensures ReadAs(parts, keys, values)
  {
  }

  lemma WrittenIs(value: string, keys: seq<string>, values: seq<string>)
    requires IsWritten(value, keys, values)
    ensures |keys| == |values| && keys != [] && value == Joined(Components(keys, values)) && value != ""
    ensures NoSemicolons(Components(keys, values))
  {
    assert value == (keys[0] + ("=" + values[0])) + Rest(Components(keys, values), ";", 1);
  }

  lemma RuleIs(parse: string -> Option<int>, value: string)
    ensures AcceptedRule(parse, value) <==>
              && value != "" && '\n' !in value && '\r' !in value && LEADING <= value
              && GoodParts(SplitOn(value, ";")) && ComponentsFault(parse, ReadParts(SplitOn(value, ";"))).None?
    ensures AcceptedRule(parse, value) ==> Outcome(parse, value) == Success(ReadParts(SplitOn(value, ";")))
  {
    hide SplitOn, GoodParts, ReadParts, ComponentsFault;
    AcceptedMeans(parse, SplitOn(value, ";"));
  }

  /** Any other text is refused: one that is not written as components, or breaks its line. */
  lemma AcceptedIsWritten(parse: string -> Option<int>, value: string) returns (keys: seq<string>, values: seq<string>)
    requires AcceptedRule(parse, value)
    ensures IsWritten(value, keys, values) && '\n' !in value && '\r' !in value
  {
    hide *;
    RuleIs(parse, value);
    var parts := SplitOn(value, ";");
    KeysOfGood(parts);
    keys, values := KeysAndValues(parts);
    PartsOfText(value);
    SplitJoin(value, ";");
    JoinedIsRest(parts);
    PartsNotEmpty(value);
    WrittenBack(value, parts, keys, values);
  }

  lemma PartsNotEmpty(value: string)
    ensures SplitOn(value, ";") != []
  {
  }

  lemma JoinedIsRest(parts: seq<string>)
    ensures Joined(parts) == Rest(parts, ";", 0)
  {
  }

  lemma KeysAndValues(parts: seq<string>) returns (keys: seq<string>, values: seq<string>)
    requires forall i :: 0 <= i < |parts| ==> HasKey(parts[i])
    ensures |keys| == |values| == |parts|
    ensures forall i :: 0 <= i < |parts| ==> parts[i] == keys[i] + ("=" + values[i]) && '=' !in keys[i]
  {
    hide HasKey, Key, Value;
    keys := seq(|parts|, i requires 0 <= i < |parts| => Key(parts[i]));
    values := seq(|parts|, i requires 0 <= i < |parts| => Value(parts[i]));
    forall i | 0 <= i < |parts|
      ensures parts[i] == keys[i] + ("=" + values[i]) && '=' !in keys[i]
    {
      KeyEnd(parts[i]);
    }
  }

  lemma WrittenBack(value: string, parts: seq<string>, keys: seq<string>, values: seq<string>)
    requires |keys| == |values| == |parts| && parts != [] && value == Joined(parts) && NoSemicolons(parts)
    requires forall i :: 0 <= i < |parts| ==> parts[i] == keys[i] + ("=" + values[i]) && '=' !in keys[i]
    ensures IsWritten(value, keys, values)
  {
    hide Joined;
    assert Components(keys, values) == parts;
    forall i | 0 <= i < |keys|
      ensures ';' !in keys[i] && ';' !in values[i]
    {
      assert forall c :: c in keys[i] || c in values[i] ==> c in parts[i];
    }
  }

  // Refusals

  /** Why a text is refused: it must be one rule; then its components are read from the left, and the first
      that is not `key=value`, repeats a key or has an unknown one is the reason. */
  lemma ComponentErrors(parse: string -> Option<int>, value: string, k: nat)
    requires |value| > 0 && '\n' !in value && '\r' !in value && "FREQ=" <= value
    requires k < |SplitOn(value, ";")| && GoodParts(SplitOn(value, ";")[..k])
    ensures var parts := SplitOn(value, ";");
            && (!HasKey(parts[k]) ==> Outcome(parse, value) == Failure(InvalidComponent))
            && (HasKey(parts[k]) ==>
                  var key := Key(parts[k]);
                  && ((exists j :: 0 <= j < k && HasKey(parts[j]) && Key(parts[j]) == key) ==>
                        Outcome(parse, value) == Failure(DuplicateComponent(key)))
                  && ((forall j :: 0 <= j < k && HasKey(parts[j]) ==> Key(parts[j]) != key) && !KnownKeys([key]) ==>
                        Outcome(parse, value) == Failure(UnsupportedComponent(key))))
  {
    hide SplitOn, HasKey, Key, Value, GoodParts, ReadParts, PartsFault, ComponentsFault;
    var parts := SplitOn(value, ";");
    KeysOfGood(parts[..k]);
    NoFault(parts[..k]);
    FaultStep(parts, k);
    ReadPartsEntries(parts[..k]);
    assert forall j :: 0 <= j < k ==> parts[..k][j] == parts[j];
    if PartsFault(parts[..k + 1]).Some? {
      EarlierFault(parts, k + 1);
    }
    if HasKey(parts[k]) {
      assert [Key(parts[k])][0] == Key(parts[k]);
    }
  }

  lemma NoFault(parts: seq<string>)
    requires GoodParts(parts)
    ensures PartsFault(parts).None?
  {
  }

  /** No rule at all. */
  lemma NotARule(parse: string -> Option<int>, value: string)
    ensures Outcome(parse, value) == Failure(NotOneRule) <==>
              value == "" || '\n' in value || '\r' in value || !("FREQ=" <= value)
  {
    hide SplitOn, ReadParts, ComponentsFault;
    PartsFaultKinds(SplitOn(value, ";"));
    ComponentsFaultKinds(parse, if GoodParts(SplitOn(value, ";")) then ReadParts(SplitOn(value, ";")) else map[]);
  }

  lemma {:induction false} PartsFaultKinds(parts: seq<string>)
    ensures PartsFault(parts) != Some(NotOneRule)
  {
    if parts != [] {
      PartsFaultKinds(parts[..|parts| - 1]);
    }
  }

  lemma ComponentsFaultKinds(parse: string -> Option<int>, components: map<string, string>)
    ensures ComponentsFault(parse, components) != Some(NotOneRule)
  {
  }
}
