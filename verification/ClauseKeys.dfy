/** Stable clause keys: a slug of the heading, numbered per slug. */
module ClauseKeys {
  import opened Common
  import opened Text
  import opened KeyText

  const MAX_SLUG := 96
  const HEADING_WORDS := 12

  datatype Chunk = Chunk(header: Option<string>, content: string)

  predicate IsKeyChar(c: char) {
    'a' <= c <= 'z' || '0' <= c <= '9'
  }

  /** Letters, digits and hyphens only. */
  predicate IsSlug(s: string) {
    forall i :: 0 <= i < |s| ==> IsKeyChar(s[i]) || s[i] == '-'
  }

  /** `_KEY_TOKEN.sub("-", s)`: each maximal run of other characters becomes one hyphen. */
  function Collapse(s: string): (r: string)
    ensures IsSlug(r)
  {
    if s == "" then ""
    else
      var init, c := Collapse(s[..|s| - 1]), s[|s| - 1];
      if IsKeyChar(c) then init + [c]
      else if |s| >= 2 && !IsKeyChar(s[|s| - 2]) then init
      else init + "-"
  }

  function StripHyphensLeft(s: string): (r: string)
    ensures IsSlug(s) ==> IsSlug(r)
  {
    if s != "" && s[0] == '-' then StripHyphensLeft(s[1..]) else s
  }

  function StripHyphensRight(s: string): (r: string)
    ensures IsSlug(s) ==> IsSlug(r)
  {
    if s != "" && s[|s| - 1] == '-' then StripHyphensRight(s[..|s| - 1]) else s
  }

  /** `" ".join(text.split()[:n])` */
  function FirstWords(text: string, n: nat): string
    decreases |text|, n
  {
    if n == 0 || text == "" then ""
    else if IsSpace(text[0]) then FirstWords(text[1..], n)
    else
      var k := WordEnd(text, 0);
      var rest := FirstWords(text[k..], n - 1);
      if rest == "" then text[..k] else text[..k] + " " + rest
  }

  function WordEnd(text: string, k: nat): (e: nat)
    requires k <= |text|
    ensures k <= e <= |text|
    ensures k < |text| && !IsSpace(text[k]) ==> e > k
    decreases |text| - k
  {
    if k < |text| && !IsSpace(text[k]) then WordEnd(text, k + 1) else k
  }

  /** `_normalized_heading` */
  function NormalizedHeading(c: Chunk): (r: string)
    ensures IsSlug(r) && ':' !in r && r != ""
  {
    var heading := if c.header.Some? then c.header.value else "";
    var words := if heading != "" then heading else FirstWords(c.content, HEADING_WORDS);
    var candidate := if words != "" then words else "clause";
    var stripped := StripHyphensRight(StripHyphensLeft(Collapse(Lower(candidate))));
    var slug := if |stripped| > MAX_SLUG then stripped[..MAX_SLUG] else stripped;
    if slug == "" then "clause" else slug
  }

  /** How many of the first `n` chunks have this slug: the counter's value. */
  function Seen(chunks: seq<Chunk>, n: nat, slug: string): (count: nat)
    requires n <= |chunks|
    ensures count <= n
  {
    if n == 0 then 0
    else Seen(chunks, n - 1, slug) + if NormalizedHeading(chunks[n - 1]) == slug then 1 else 0
  }

  /** The key of chunk `i`: its slug and how many times the slug has occurred up to it. */
  function StableKey(chunks: seq<Chunk>, i: nat): string
    requires i < |chunks|
  {
    var slug := NormalizedHeading(chunks[i]);
    slug + ":" + Decimal(Seen(chunks, i + 1, slug))
  }

  lemma {:induction false} SeenMonotone(chunks: seq<Chunk>, m: nat, n: nat, slug: string)
    requires m <= n <= |chunks|
    ensures Seen(chunks, m, slug) <= Seen(chunks, n, slug)
    decreases n
  {
    if m < n {
      SeenMonotone(chunks, m, n - 1, slug);
    }
  }

  /** No two chunks of a version share a key. */
  lemma StableKeysDistinct(chunks: seq<Chunk>, i: nat, j: nat)
    requires i < j < |chunks|
    ensures StableKey(chunks, i) != StableKey(chunks, j)
  {
    hide NormalizedHeading;
    if StableKey(chunks, i) == StableKey(chunks, j) {
      var a, b := NormalizedHeading(chunks[i]), NormalizedHeading(chunks[j]);
      var m, n := Seen(chunks, i + 1, a), Seen(chunks, j + 1, b);
      LastColon(a, Decimal(m), b, Decimal(n));
      DecimalInjective(m, n);
      SeenMonotone(chunks, i + 1, j, a);
    }
  }

  /** The keys of a version's first `n` chunks. */
  function KeysBefore(chunks: seq<Chunk>, n: nat): set<string>
    requires n <= |chunks|
  {
    set i | 0 <= i < n :: StableKey(chunks, i)
  }

  lemma {:induction false} KeysCount(chunks: seq<Chunk>, n: nat)
    requires n <= |chunks|
    ensures |KeysBefore(chunks, n)| == n
  {
    hide StableKey;
    if n > 0 {
      KeysCount(chunks, n - 1);
      forall i | 0 <= i < n - 1
        ensures StableKey(chunks, i) != StableKey(chunks, n - 1)
      {
        StableKeysDistinct(chunks, i, n - 1);
      }
      assert KeysBefore(chunks, n) == KeysBefore(chunks, n - 1) + {StableKey(chunks, n - 1)};
    }
  }
}
