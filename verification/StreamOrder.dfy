/** Which provider is asked when, and what the consumer gets, on the settings and answers alone. */
module StreamOrder {
  import opened Common
  import opened Streaming

  // Settings

  /** A provider with the keys it needs. */
  predicate IsReady(settings: Settings, provider: string) {
    || (provider == "opencode" && |settings.opencodeKey| > 0)
    || (provider == "openrouter" && |settings.openrouterKey| > 0)
    || (provider == "openai" && |settings.openaiKey| > 0)
    || (provider == "bedrock" && |settings.awsKeyId| > 0 && |settings.awsSecret| > 0)
    || provider == "ollama"
  }

  lemma UsableIs(settings: Settings, c: Candidate)
    ensures IsUsable(settings, c) <==> IsReady(settings, c.provider)
  {
    assert |"mock"| == 4 && |"ollama"| == 6 && |"opencode"| == 8 && |"openrouter"| == 10 && |"bedrock"| == 7;
    assert "mock" != "openai" by {
      assert |"openai"| == 6;
    }
    assert "openai"[0] == 'o' && "ollama"[1] == 'l' && "openai"[1] == 'p';
  }

  function Primary(settings: Settings): Candidate {
    Candidate(settings.provider, settings.model)
  }

  function Fallback(settings: Settings): Candidate {
    Candidate(settings.fallbackProvider, settings.fallbackModel)
  }

  /** The usable candidates: the primary before a fallback that is another one. */
  lemma UsableAre(settings: Settings)
    ensures Usable(settings) ==
              (if IsReady(settings, settings.provider) then [Primary(settings)] else [])
              + (if IsReady(settings, settings.fallbackProvider) && Fallback(settings) != Primary(settings)
                 then [Fallback(settings)] else [])
  {
    hide IsUsable, IsReady;
    UsableIs(settings, Primary(settings));
    UsableIs(settings, Fallback(settings));
    UsableOne(settings, Primary(settings));
    UsableTwo(settings, Primary(settings), Fallback(settings));
  }

  lemma UsableOne(settings: Settings, c: Candidate)
    ensures UsableFrom(settings, [c]) == if IsUsable(settings, c) then [c] else []
  {
    hide IsUsable;
    assert [c][1..] == [];
    assert UsableFrom(settings, []) == [];
  }

  lemma UsableTwo(settings: Settings, a: Candidate, b: Candidate)
    ensures UsableFrom(settings, [a, b]) ==
              (if IsUsable(settings, a) then [a] else []) + (if IsUsable(settings, b) then [b] else [])
  {
    hide IsUsable;
    UsableOne(settings, b);
    assert [a, b][1..] == [b];
  }

  // Answers

  /** How far the lines of an answer can be read. */
  predicate ReadsTo(a: Attempt, n: nat) {
    && n <= |a.lines|
    && (forall i :: 0 <= i < n ==> !a.lines[i].Undecodable?)
    && (n < |a.lines| ==> a.lines[n].Undecodable?)
  }

  /** The texts of the lines that carry any. */
  function Texts(lines: seq<Line>): seq<Chunk> {
    if lines == [] then []
    else Texts(lines[..|lines| - 1]) + match lines[|lines| - 1]
         case Content(text) => [text]
         case _ => []
  }

  lemma {:induction false} TextsCons(line: Line, lines: seq<Line>)
    ensures Texts([line] + lines) == (if line.Content? then [line.text] else []) + Texts(lines)
  {
    var all := [line] + lines;
    if lines == [] {
      assert all[..0] == [];
    } else {
      TextsCons(line, lines[..|lines| - 1]);
      assert all[..|all| - 1] == [line] + lines[..|lines| - 1];
    }
  }

  lemma {:induction false} EmittedIs(lines: seq<Line>, n: nat)
    requires n <= |lines| && (n < |lines| ==> lines[n].Undecodable?)
    requires forall i :: 0 <= i < n ==> !lines[i].Undecodable?
    ensures EmittedBy(lines) == Texts(lines[..n])
    decreases n
  {
    if n > 0 {
      EmittedIs(lines[1..], n - 1);
      TextsCons(lines[0], lines[1..][..n - 1]);
      assert lines[..n] == [lines[0]] + lines[1..][..n - 1];
    }
  }

  /** What an answer delivers: the texts up to the first line that cannot be read; and how it ends: with
      that line if there is one, else as the provider ended it. */
  lemma AnswerIs(a: Attempt, n: nat)
    requires ReadsTo(a, n)
    ensures Emitted(a) == Texts(a.lines[..n])
    ensures Ending(a) == if n < |a.lines| then Some(Malformed) else a.failure
  {
    EmittedIs(a.lines, n);
  }

  lemma {:induction false} Readable(lines: seq<Line>) returns (n: nat)
    ensures n <= |lines| && (forall i :: 0 <= i < n ==> !lines[i].Undecodable?)
    ensures n < |lines| ==> lines[n].Undecodable?
  {
    n := 0;
    if lines != [] && !lines[0].Undecodable? {
      n := Readable(lines[1..]);
      n := n + 1;
      assert forall i :: 0 < i < n ==> lines[i] == lines[1..][i - 1];
    }
  }

  /** An answer that carried no text before it failed. */
  ghost predicate FailedEmpty(a: Attempt) {
    exists n: nat :: ReadsTo(a, n) && (forall i :: 0 <= i < n ==> !a.lines[i].Content?)
                     && (n < |a.lines| || a.failure.Some?)
  }

  lemma {:induction false} NoTexts(lines: seq<Line>)
    ensures Texts(lines) == [] <==> forall i :: 0 <= i < |lines| ==> !lines[i].Content?
  {
    if lines != [] {
      NoTexts(lines[..|lines| - 1]);
    }
  }

  lemma ReadsOnce(a: Attempt, m: nat, n: nat)
    requires ReadsTo(a, m) && ReadsTo(a, n)
    ensures m == n
  {
  }

  lemma FailedEmptyIs(a: Attempt)
    ensures FailedEmpty(a) <==> !Conclusive(a)
  {
    hide Emitted, Ending;
    var n := Readable(a.lines);
    assert ReadsTo(a, n);
    AnswerIs(a, n);
    NoTexts(a.lines[..n]);
    assert forall i :: 0 <= i < n ==> a.lines[..n][i] == a.lines[i];
    if m: nat :| ReadsTo(a, m) && (forall i :: 0 <= i < m ==> !a.lines[i].Content?) && (m < |a.lines| || a.failure.Some?) {
      ReadsOnce(a, m, n);
    }
  }

  /** Timeouts, transport errors, and the status codes that may pass. */
  predicate MayPass(e: Error) {
    || e == Timeout || e == Transport
    || (e.HttpStatus? && (e.code == 408 || e.code == 409 || e.code == 425 || e.code == 429 || e.code >= 500))
  }

  /** A failure worth another request: of a provider asked directly, before any text, for a reason that
      may pass, with requests left. */
  ghost predicate IsRepeated(world: World, settings: Settings, r: Request) {
    && r.candidate.provider in {"opencode", "openrouter", "openai"}
    && FailedEmpty(world(r)) && ReadsTo(world(r), |world(r).lines|)
    && world(r).failure.Some? && MayPass(world(r).failure.value)
    && r.attempt < settings.retries
  }

  lemma RepeatedIs(world: World, settings: Settings, r: Request)
    ensures AsksAgain(world, settings, r) <==> IsRepeated(world, settings, r)
  {
    hide Emitted, Ending, Conclusive;
    FailedEmptyIs(world(r));
    var n := Readable(world(r).lines);
    AnswerIs(world(r), n);
    if AsksAgain(world, settings, r) {
      assert n == |world(r).lines|;
    }
    if IsRepeated(world, settings, r) {
      AnswerIs(world(r), |world(r).lines|);
    }
  }

  // Requests

  /** One candidate's requests: numbered, each but the last worth repeating, the last not. */
  ghost predicate AreRequests(world: World, settings: Settings, c: Candidate, trace: seq<Request>) {
    && trace != []
    && (forall i :: 0 <= i < |trace| ==> trace[i] == Request(c, i))
    && forall i :: 0 <= i < |trace| ==> (IsRepeated(world, settings, trace[i]) <==> i < |trace| - 1)
  }

  lemma {:induction false} DirectFrom(world: World, settings: Settings, r: Request)
    ensures var trace := DirectTrace(world, settings, r);
            && trace != []
            && (forall i :: 0 <= i < |trace| ==> trace[i] == Request(r.candidate, r.attempt + i))
            && forall i :: 0 <= i < |trace| ==> (AsksAgain(world, settings, trace[i]) <==> i < |trace| - 1)
    decreases settings.retries - r.attempt
  {
    hide Emitted, Ending;
    if AsksAgain(world, settings, r) {
      var next := Request(r.candidate, r.attempt + 1);
      DirectFrom(world, settings, next);
      var rest, trace := DirectTrace(world, settings, next), DirectTrace(world, settings, r);
      assert forall i :: 0 < i < |trace| ==> trace[i] == rest[i - 1];
    }
  }

  lemma RequestsOf(world: World, settings: Settings, c: Candidate)
    ensures AreRequests(world, settings, c, DirectTrace(world, settings, Request(c, 0)))
  {
    hide AsksAgain, IsRepeated;
    DirectFrom(world, settings, Request(c, 0));
    var trace := DirectTrace(world, settings, Request(c, 0));
    forall i | 0 <= i < |trace|
      ensures AsksAgain(world, settings, trace[i]) <==> IsRepeated(world, settings, trace[i])
    {
      RepeatedIs(world, settings, trace[i]);
    }
  }

  /** The requests of a call. Those to the primary come first, if it is ready; then, if it is ready and
      another one, those to the fallback, exactly when the primary is not ready or its last request
      failed before it carried any text. No primary request follows a fallback one. */
  lemma RequestOrder(world: World, settings: Settings) returns (first: seq<Request>, second: seq<Request>)
    ensures Trace(world, settings, Usable(settings)) == first + second
    ensures first != [] <==> IsReady(settings, settings.provider)
    ensures first != [] ==> AreRequests(world, settings, Primary(settings), first)
    ensures second != [] <==>
              && IsReady(settings, settings.fallbackProvider) && Fallback(settings) != Primary(settings)
              && (first == [] || FailedEmpty(world(first[|first| - 1])))
    ensures second != [] ==> AreRequests(world, settings, Fallback(settings), second)
  {
    hide DirectTrace, IsReady, FailedEmpty, Conclusive, AreRequests, Usable;
    var p, f := Primary(settings), Fallback(settings);
    UsableAre(settings);
    RequestsOf(world, settings, p);
    RequestsOf(world, settings, f);
    var toP, toF := DirectTrace(world, settings, Request(p, 0)), DirectTrace(world, settings, Request(f, 0));
    TraceOne(world, settings, p);
    TraceOne(world, settings, f);
    TraceTwo(world, settings, p, f);
    FailedEmptyIs(world(toP[|toP| - 1]));
    FirstNotEmpty(world, settings, p);
    first, second := [], [];
    if IsReady(settings, settings.provider) {
      first := toP;
    }
    if IsReady(settings, settings.fallbackProvider) && f != p && (first == [] || FailedEmpty(world(first[|first| - 1]))) {
      second := toF;
    }
    assert toP + [] == toP && [] + toF == toF;
  }

  lemma FirstNotEmpty(world: World, settings: Settings, c: Candidate)
    ensures DirectTrace(world, settings, Request(c, 0)) != []
  {
  }

  lemma TraceOne(world: World, settings: Settings, c: Candidate)
    ensures Trace(world, settings, [c]) == DirectTrace(world, settings, Request(c, 0))
    ensures Trace(world, settings, []) == []
  {
    hide DirectTrace, Conclusive;
    assert [c][1..] == [];
    var trace := DirectTrace(world, settings, Request(c, 0));
    assert trace + [] == trace;
  }

  lemma TraceTwo(world: World, settings: Settings, p: Candidate, f: Candidate)
    ensures var first := DirectTrace(world, settings, Request(p, 0));
            Trace(world, settings, [p] + [f]) ==
              if Conclusive(world(first[|first| - 1])) then first
              else first + DirectTrace(world, settings, Request(f, 0))
  {
    hide DirectTrace, Conclusive;
    TraceOne(world, settings, f);
    assert ([p] + [f])[1..] == [f];
  }
}
