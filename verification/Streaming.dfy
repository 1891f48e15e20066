/** Token streaming with retries on one provider and fallback to a second. */
module Streaming {
  import opened Common

  datatype Error = Timeout | Transport | HttpStatus(code: int) | Malformed | OtherError | NoProvider

  /** What a provider may answer line by line: content, something to skip, or undecodable data. */
  datatype Line = Content(text: Option<string>) | Skipped | Undecodable

  /** One request's behaviour: the lines that arrive, and the error that ends them, if any. A request
      that fails before its first line has none. */
  datatype Attempt = Attempt(lines: seq<Line>, failure: Option<Error>)

  type Chunk = Option<string>

  datatype Settings = Settings(
    provider: string, model: string, fallbackProvider: string, fallbackModel: string, retries: nat,
    opencodeKey: string, openrouterKey: string, openaiKey: string, awsKeyId: string, awsSecret: string)

  datatype Candidate = Candidate(provider: string, model: string)

  datatype Request = Request(candidate: Candidate, attempt: nat)

  /** How the outside world answers each request. */
  type World = Request -> Attempt

  const DIRECT_PROVIDERS := {"opencode", "openrouter", "openai"}
  const RETRYABLE_CODES := {408, 409, 425, 429}

  predicate IsRetryable(e: Error) {
    || e.Timeout?
    || e.Transport?
    || (e.HttpStatus? && (e.code in RETRYABLE_CODES || e.code >= 500))
  }

  predicate ProviderAvailable(provider: string, settings: Settings) {
    if provider == "opencode" then settings.opencodeKey != ""
    else if provider == "openrouter" then settings.openrouterKey != ""
    else if provider == "openai" then settings.openaiKey != ""
    else if provider == "bedrock" then settings.awsKeyId != "" && settings.awsSecret != ""
    else provider == "ollama"
  }

  /** The chunks a request's lines carry, up to the first undecodable line. */
  function EmittedBy(lines: seq<Line>): seq<Chunk> {
    if lines == [] || lines[0].Undecodable? then []
    else (if lines[0].Content? then [lines[0].text] else []) + EmittedBy(lines[1..])
  }

  function Emitted(a: Attempt): seq<Chunk> {
    EmittedBy(a.lines)
  }

  /** How a request ends. */
  function Ending(a: Attempt): Option<Error> {
    if exists i :: 0 <= i < |a.lines| && a.lines[i].Undecodable? then Some(Malformed) else a.failure
  }

  /** The caller is done with a request that delivered something or ended well. */
  predicate Conclusive(a: Attempt) {
    Emitted(a) != [] || Ending(a).None?
  }

  /** A direct provider is asked again after a retryable error before the first chunk, while attempts
      remain. */
  predicate AsksAgain(world: World, settings: Settings, r: Request) {
    var a := world(r);
    && r.candidate.provider in DIRECT_PROVIDERS
    && !Conclusive(a)
    && r.attempt < settings.retries
    && IsRetryable(Ending(a).value)
  }

  /** The configured candidates, each once. */
  function Candidates(settings: Settings): seq<Candidate> {
    var primary := Candidate(settings.provider, settings.model);
    var fallback := Candidate(settings.fallbackProvider, settings.fallbackModel);
    if primary == fallback then [primary] else [primary, fallback]
  }

  predicate IsUsable(settings: Settings, c: Candidate) {
    c.provider != "mock" && ProviderAvailable(c.provider, settings)
  }

  function UsableFrom(settings: Settings, candidates: seq<Candidate>): (usable: seq<Candidate>)
    ensures |usable| <= |candidates|
    ensures forall c :: c in usable <==> c in candidates && IsUsable(settings, c)
  {
    if candidates == [] then []
    else (if IsUsable(settings, candidates[0]) then [candidates[0]] else []) + UsableFrom(settings, candidates[1..])
  }

  function Usable(settings: Settings): seq<Candidate> {
    UsableFrom(settings, Candidates(settings))
  }

  /** Reading one request's lines: the chunks are handed on as they arrive. */
  method ReadLines(a: Attempt) returns (chunks: seq<Chunk>, ending: Option<Error>)
    ensures chunks == Emitted(a) && ending == Ending(a)
  {
    chunks := [];
    for i := 0 to |a.lines|
      invariant forall k :: 0 <= k < i ==> !a.lines[k].Undecodable?
      invariant Emitted(a) == chunks + EmittedBy(a.lines[i..])
    {
      assert a.lines[i..][1..] == a.lines[i + 1..];
      match a.lines[i]
      case Skipped =>
      case Undecodable =>
        return chunks, Some(Malformed);
      case Content(text) =>
        chunks := chunks + [text];
    }
    ending := a.failure;
  }

  // The requests made

  function DirectTrace(world: World, settings: Settings, r: Request): (trace: seq<Request>)
    ensures trace != []
    decreases settings.retries - r.attempt
  {
    if AsksAgain(world, settings, r) then [r] + DirectTrace(world, settings, Request(r.candidate, r.attempt + 1)) else [r]
  }

  /** The requests for the usable candidates in turn, up to the first conclusive one. */
  function Trace(world: World, settings: Settings, usable: seq<Candidate>): seq<Request> {
    if usable == [] then []
    else
      var trace := DirectTrace(world, settings, Request(usable[0], 0));
      if Conclusive(world(trace[|trace| - 1])) then trace else trace + Trace(world, settings, usable[1..])
  }

  function Last(trace: seq<Request>): Request
    requires trace != []
  {
    trace[|trace| - 1]
  }

  /** Every request but the last delivered nothing and failed. */
  ghost predicate OnlyLastDelivers(world: World, trace: seq<Request>) {
    forall i :: 0 <= i < |trace| - 1 ==> Emitted(world(trace[i])) == [] && Ending(world(trace[i])).Some?
  }

  lemma {:induction false} DirectTraceShape(world: World, settings: Settings, r: Request)
    requires r.attempt <= settings.retries
    ensures var trace := DirectTrace(world, settings, r);
            && |trace| <= settings.retries + 1 - r.attempt
            && (forall i :: 0 <= i < |trace| ==> trace[i] == Request(r.candidate, r.attempt + i))
            && OnlyLastDelivers(world, trace)
            && !AsksAgain(world, settings, Last(trace))
    decreases settings.retries - r.attempt
  {
    hide Emitted, Ending;
    if AsksAgain(world, settings, r) {
      var next := Request(r.candidate, r.attempt + 1);
      DirectTraceShape(world, settings, next);
      var rest := DirectTrace(world, settings, next);
      var trace := DirectTrace(world, settings, r);
      assert forall i :: 0 < i < |trace| ==> trace[i] == rest[i - 1];
      assert Last(trace) == Last(rest);
    }
  }

  /** Whatever fails where, only the last request may have delivered anything, no request is repeated,
      and with `n` usable candidates at most `n * (retries + 1)` requests are made. */
  lemma {:induction false} TraceShape(world: World, settings: Settings, usable: seq<Candidate>)
    requires NoDuplicates(usable)
    ensures var trace := Trace(world, settings, usable);
            && |trace| <= |usable| * (settings.retries + 1)
            && NoDuplicates(trace)
            && OnlyLastDelivers(world, trace)
            && (trace == [] <==> usable == [])
            && forall i :: 0 <= i < |trace| ==> trace[i].candidate in usable && trace[i].attempt <= settings.retries
  {
    hide Emitted, Ending, AsksAgain;
    if usable != [] {
      DirectTraceShape(world, settings, Request(usable[0], 0));
      TraceShape(world, settings, usable[1..]);
      var first, rest := DirectTrace(world, settings, Request(usable[0], 0)), Trace(world, settings, usable[1..]);
      hide DirectTrace, Trace;
      assert |usable| * (settings.retries + 1) == (settings.retries + 1) + |usable[1..]| * (settings.retries + 1);
      assert forall i :: 0 <= i < |rest| ==> rest[i].candidate in usable && rest[i].candidate != usable[0];
      assert NoDuplicates(first) && NoDuplicates(first + rest);
    }
  }

  lemma {:induction false} UsableDistinct(settings: Settings, candidates: seq<Candidate>)
    requires NoDuplicates(candidates)
    ensures NoDuplicates(UsableFrom(settings, candidates))
  {
    hide IsUsable;
    if candidates != [] {
      UsableDistinct(settings, candidates[1..]);
      assert candidates[0] !in candidates[1..];
    }
  }

  /** `_direct_completion_stream`, and a provider reached through the client library, which is asked
      once. */
  method StreamFrom(world: World, settings: Settings, candidate: Candidate)
    returns (chunks: seq<Chunk>, ending: Option<Error>, trace: seq<Request>)
    ensures trace == DirectTrace(world, settings, Request(candidate, 0))
    ensures chunks == Emitted(world(Last(trace))) && ending == Ending(world(Last(trace)))
  {
    hide Emitted, Ending;
    trace := [];
    var attempt := 0;
    while true
      invariant attempt <= settings.retries
      invariant DirectTrace(world, settings, Request(candidate, 0)) == trace + DirectTrace(world, settings, Request(candidate, attempt))
      decreases settings.retries - attempt
    {
      var r := Request(candidate, attempt);
      trace := trace + [r];
      chunks, ending := ReadLines(world(r));
      if ending.None? || candidate.provider !in DIRECT_PROVIDERS || chunks != [] || attempt + 1 >= settings.retries + 1
         || !IsRetryable(ending.value) {
        return;
      }
      attempt := attempt + 1;
    }
  }

  /** `_stream_with_fallback`: what the consumer sees is one request's stream, and the call ends as
      that request ended. */
  method StreamWithFallback(world: World, settings: Settings)
    returns (chunks: seq<Chunk>, outcome: Option<Error>, trace: seq<Request>)
    ensures trace == Trace(world, settings, Usable(settings))
    ensures |trace| <= 2 * (settings.retries + 1) && OnlyLastDelivers(world, trace)
    ensures trace == [] <==> Usable(settings) == []
    ensures trace == [] ==> chunks == [] && outcome == Some(NoProvider)
    ensures trace != [] ==> chunks == Emitted(world(Last(trace))) && outcome == Ending(world(Last(trace)))
  {
    hide *;
    var candidates := Candidates(settings);
    StartOfTrace(world, settings);
    trace, outcome, chunks := [], None, [];
    for i := 0 to |candidates|
      invariant Trace(world, settings, Usable(settings)) == trace + Trace(world, settings, UsableFrom(settings, candidates[i..]))
      invariant chunks == [] && (trace == [] <==> outcome.None?)
      invariant trace != [] ==> outcome == Ending(world(Last(trace))) && Emitted(world(Last(trace))) == []
    {
      TraceNext(world, settings, candidates, i);
      if !IsUsable(settings, candidates[i]) {
        continue;
      }
      var got, ending, requests := StreamFrom(world, settings, candidates[i]);
      LastOfSum(trace, requests);
      trace, outcome := trace + requests, ending;
      if ending.None? || got != [] {
        return got, ending, trace;
      }
    }
    NothingLeft(world, settings, candidates);
    if outcome.None? {
      outcome := Some(NoProvider);
    }
  }

  lemma StartOfTrace(world: World, settings: Settings)
    ensures var trace := Trace(world, settings, Usable(settings));
            && |trace| <= 2 * (settings.retries + 1) && OnlyLastDelivers(world, trace)
            && (trace == [] <==> Usable(settings) == [])
            && trace == Trace(world, settings, UsableFrom(settings, Candidates(settings)[0..]))
  {
    hide Trace, IsUsable, OnlyLastDelivers;
    UsableDistinct(settings, Candidates(settings));
    TraceShape(world, settings, Usable(settings));
    BoundTwo(|Usable(settings)|, settings.retries + 1);
    assert Candidates(settings)[0..] == Candidates(settings);
  }

  /** What candidate `i` adds to the requests. */
  lemma TraceNext(world: World, settings: Settings, candidates: seq<Candidate>, i: nat)
    requires i < |candidates|
    ensures var now := Trace(world, settings, UsableFrom(settings, candidates[i..]));
            var later := Trace(world, settings, UsableFrom(settings, candidates[i + 1..]));
            if !IsUsable(settings, candidates[i]) then now == later
            else
              var trace := DirectTrace(world, settings, Request(candidates[i], 0));
              var a := world(Last(trace));
              now == if Emitted(a) != [] || Ending(a).None? then trace else trace + later
  {
    hide Emitted, Ending, IsUsable;
    assert candidates[i..][0] == candidates[i] && candidates[i..][1..] == candidates[i + 1..];
    var rest := UsableFrom(settings, candidates[i..]);
    assert [] + UsableFrom(settings, candidates[i + 1..]) == UsableFrom(settings, candidates[i + 1..]);
    if IsUsable(settings, candidates[i]) {
      assert rest[0] == candidates[i] && rest[1..] == UsableFrom(settings, candidates[i + 1..]);
    }
  }

  lemma LastOfSum(a: seq<Request>, b: seq<Request>)
    requires b != []
    ensures Last(a + b) == Last(b)
    ensures forall c: seq<Request> :: a + b + c == a + (b + c)
  {
  }

  lemma NothingLeft(world: World, settings: Settings, candidates: seq<Candidate>)
    ensures Trace(world, settings, UsableFrom(settings, candidates[|candidates|..])) == []
  {
  }

  lemma BoundTwo(n: nat, k: nat)
    requires n <= 2
    ensures n * k <= 2 * k
  {
  }
}
