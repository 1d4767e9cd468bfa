/**
 * The web search tool: the pre-checks of `search_web`, its three-attempt
 * retry, the selection of references from a grounded answer, and the title
 * filter applied to fetched pages. The search backend, the redirect
 * resolution and the HTML title regex are parameters.
 */
module WebSearch {
  import opened Wrappers
  import opened Text
  import opened Envelope
  import opened Numbers
  import UrlScraper

  // ---------------------------------------------------------------------
  // The grounded answer, as the JSON fields the tool reads from it
  // ---------------------------------------------------------------------

  /** A chunk's `web` record; `title` is "" when the record has none. */
  datatype Web = Web(uri: string, title: string)

  datatype Chunk = Chunk(web: Option<Web>)

  /**
   * A grounding support: the chunk indices it cites (empty when absent),
   * its segment text ("" when absent) and its confidence scores.
   */
  datatype Support = Support(chunkIndices: seq<int>, text: string, confidenceScores: seq<real>)

  /**
   * Grounding metadata. The supports and the chunks read as empty when they
   * are absent or null (`or []` in the source); `webSearchQueries` reads as
   * empty only when absent, and a null value for it is not represented.
   */
  datatype Metadata = Metadata(supports: seq<Support>, chunks: seq<Chunk>, webSearchQueries: seq<string>)

  /** A candidate; `None` stands for grounding metadata that is absent or empty. */
  datatype Candidate = Candidate(metadata: Option<Metadata>)

  datatype GeminiResponse = GeminiResponse(candidates: seq<Candidate>, text: string)

  datatype Reference = Reference(content: string, url: string, title: string, confidence: Option<real>)

  // ---------------------------------------------------------------------
  // Page titles
  // ---------------------------------------------------------------------

  const Blacklist: seq<string> := ["Attention Required! | Cloudflare", "Just a moment...", "Security check"]

  predicate Blacklisted(title: string) {
    exists k :: 0 <= k < |Blacklist| && Contains(title, Blacklist[k])
  }

  /** A non-empty title containing a blacklisted phrase is dropped; any other title is kept. */
  function FilterTitle(title: Option<string>): (r: Option<string>)
    ensures r.Some? ==> r == title && !Blacklisted(r.value)
    ensures title.Some? && !Blacklisted(title.value) ==> r == title
  {
    if title.Some? && title.value != "" && Blacklisted(title.value) then None
    else
      EmptyTitleIsClean();
      title
  }

  lemma EmptyTitleIsClean()
    ensures !Blacklisted("")
  {
    forall k | 0 <= k < |Blacklist| ensures !Contains("", Blacklist[k]) {
      ShortTextLacksPattern("", Blacklist[k]);
    }
  }

  /** What resolving a link gives: the final URL and the page's text, or an exception. */
  datatype Fetch = Fetched(finalUrl: string, content: string) | FetchError

  /**
   * `follow_redirect`: clean the URL the same way `clean_url` does, resolve
   * it, and read the page title through the blacklist filter; on any error
   * the cleaned URL comes back with no title.
   */
  function FollowRedirect(url: string, fetch: string -> Fetch, extractTitle: string -> Option<string>)
    : (r: (string, Option<string>))
    ensures r.1.Some? ==> !Blacklisted(r.1.value)
    ensures fetch(UrlScraper.CleanUrl(url)).FetchError? ==> r == (UrlScraper.CleanUrl(url), None)
    ensures fetch(UrlScraper.CleanUrl(url)).Fetched? ==>
      && r.0 == fetch(UrlScraper.CleanUrl(url)).finalUrl
      && r.1 == FilterTitle(extractTitle(fetch(UrlScraper.CleanUrl(url)).content))
  {
    var u := UrlScraper.CleanUrl(url);
    match fetch(u)
    case FetchError => (u, None)
    case Fetched(finalUrl, content) => (finalUrl, FilterTitle(extractTitle(content)))
  }

  // ---------------------------------------------------------------------
  // Reference selection
  // ---------------------------------------------------------------------

  /** What the loop does for one cited chunk index: skip it, emit a reference, or raise. */
  datatype ChunkStep = Skip | Emit(reference: Reference) | Crash

  function FirstScore(scores: seq<real>): (r: Option<real>)
    ensures r.Some? <==> |scores| > 0
    ensures r.Some? ==> r.value == scores[0]
  {
    if |scores| > 0 then Some(scores[0]) else None
  }

  /**
   * One cited chunk index. An index at or past the end is skipped; an index
   * from -len to -1 counts from the end, as Python's list indexing does; an
   * index below -len raises outside the per-chunk `try`. A chunk without a
   * web record, and a support with empty text, give no reference.
   */
  function StepFor(support: Support, idx: int, chunks: seq<Chunk>, follow: string -> (string, Option<string>))
    : (s: ChunkStep)
    ensures idx >= |chunks| ==> s == Skip
    ensures s == Crash <==> idx < -|chunks|
    ensures support.text == "" ==> !s.Emit?
    ensures -|chunks| <= idx < |chunks| && PyIndex(chunks, idx).web.None? ==> s == Skip
    ensures s.Emit? <==> -|chunks| <= idx < |chunks| && PyIndex(chunks, idx).web.Some? && support.text != ""
    ensures s.Emit? ==>
      var web := PyIndex(chunks, idx).web.value;
      var (finalUrl, title) := follow(web.uri);
      && s.reference.content == support.text
      && s.reference.url == finalUrl
      && s.reference.title == (if title.Some? && title.value != "" then title.value else web.title)
      && s.reference.confidence == FirstScore(support.confidenceScores)
  {
    if idx >= |chunks| then Skip
    else if idx < -|chunks| then Crash
    else
      var chunk := PyIndex(chunks, idx);
      if chunk.web.None? then Skip
      else
        var (finalUrl, title) := follow(chunk.web.value.uri);
        if support.text == "" then Skip
        else
          var shown := if title.Some? && title.value != "" then title.value else chunk.web.value.title;
          Emit(Reference(support.text, finalUrl, shown, FirstScore(support.confidenceScores)))
  }

  /** Python's `s[i]` for `-len(s) <= i < len(s)`. */
  function PyIndex<T>(s: seq<T>, i: int): T
    requires -|s| <= i < |s|
  {
    if i >= 0 then s[i] else s[|s| + i]
  }

  /** The steps for one support, in the order of its chunk indices. */
  function SupportSteps(support: Support, chunks: seq<Chunk>, follow: string -> (string, Option<string>))
    : (r: seq<ChunkStep>)
    ensures |r| == |support.chunkIndices|
    ensures forall k :: 0 <= k < |r| ==> r[k] == StepFor(support, support.chunkIndices[k], chunks, follow)
  {
    seq(|support.chunkIndices|, k requires 0 <= k < |support.chunkIndices| =>
      StepFor(support, support.chunkIndices[k], chunks, follow))
  }

  /** All steps: support by support, each in chunk-index order. */
  function AllSteps(supports: seq<Support>, chunks: seq<Chunk>, follow: string -> (string, Option<string>))
    : seq<ChunkStep>
    decreases |supports|
  {
    if supports == [] then []
    else SupportSteps(supports[0], chunks, follow) + AllSteps(supports[1..], chunks, follow)
  }

  /**
   * Runs the steps after `acc` was collected: stop as soon as `maxReferences`
   * references are held; a crash discards everything (`None`).
   */
  function Collect(steps: seq<ChunkStep>, maxReferences: int, acc: seq<Reference>): Option<seq<Reference>>
    decreases |steps|
  {
    if |acc| >= maxReferences || steps == [] then Some(acc)
    else
      match steps[0]
      case Skip => Collect(steps[1..], maxReferences, acc)
      case Emit(reference) => Collect(steps[1..], maxReferences, acc + [reference])
      case Crash => None
  }

  /** Every reference the steps would emit, in order, were there no limit. */
  function Emitted(steps: seq<ChunkStep>): seq<Reference>
    decreases |steps|
  {
    if steps == [] then []
    else (if steps[0].Emit? then [steps[0].reference] else []) + Emitted(steps[1..])
  }

  function Min(a: int, b: int): int {
    if a <= b then a else b
  }

  /**
   * The collected references are the first emitted ones, as many as the
   * limit leaves room for; only a crash step can make the run fail.
   */
  lemma {:induction false} CollectTakesFirstEmitted(steps: seq<ChunkStep>, maxReferences: int, acc: seq<Reference>)
    ensures var room := if maxReferences - |acc| > 0 then maxReferences - |acc| else 0;
      var r := Collect(steps, maxReferences, acc);
      && (r.Some? ==> r.value == acc + Emitted(steps)[..Min(room, |Emitted(steps)|)])
      && (r.None? ==> Crash in steps)
    decreases |steps|
  {
    if |acc| >= maxReferences || steps == [] {
    } else {
      var rest := steps[1..];
      match steps[0]
      case Skip =>
        CollectTakesFirstEmitted(rest, maxReferences, acc);
      case Emit(reference) =>
        CollectTakesFirstEmitted(rest, maxReferences, acc + [reference]);
        var room := maxReferences - |acc|;
        var e := Emitted(rest);
        assert Emitted(steps) == [reference] + e;
        assert ([reference] + e)[..Min(room, 1 + |e|)] == [reference] + e[..Min(room - 1, |e|)];
      case Crash =>
    }
  }

  /** Before any crash step the run cannot fail. */
  lemma CrashFreeCollectSucceeds(steps: seq<ChunkStep>, maxReferences: int)
    requires Crash !in steps
    ensures Collect(steps, maxReferences, []).Some?
  {
    CollectTakesFirstEmitted(steps, maxReferences, []);
  }

  /**
   * `extract_references` as a value: nothing without a candidate or without
   * grounding metadata, nothing after a crash, otherwise what `Collect` keeps.
   */
  function SelectReferences(response: GeminiResponse, maxReferences: int, follow: string -> (string, Option<string>))
    : seq<Reference>
  {
    if |response.candidates| == 0 then []
    else match response.candidates[0].metadata
      case None => []
      case Some(m) =>
        match Collect(AllSteps(m.supports, m.chunks, follow), maxReferences, [])
        case Some(refs) => refs
        case None => []
  }

  /**
   * At most `maxReferences` references, none when it is zero or less, each
   * one emitted by a cited chunk, in support order and then chunk order.
   */
  lemma SelectionBounds(response: GeminiResponse, maxReferences: int, follow: string -> (string, Option<string>))
    ensures |SelectReferences(response, maxReferences, follow)| <= Quota(maxReferences)
    ensures var refs := SelectReferences(response, maxReferences, follow);
      |response.candidates| > 0 && response.candidates[0].metadata.Some? ==>
        var m := response.candidates[0].metadata.value;
        refs <= Emitted(AllSteps(m.supports, m.chunks, follow))
  {
    if |response.candidates| > 0 && response.candidates[0].metadata.Some? {
      var m := response.candidates[0].metadata.value;
      CollectTakesFirstEmitted(AllSteps(m.supports, m.chunks, follow), maxReferences, []);
    }
  }

  lemma {:induction false} EmittedFrom(steps: seq<ChunkStep>)
    ensures forall x :: x in Emitted(steps) ==> exists j :: 0 <= j < |steps| && steps[j] == Emit(x)
    decreases |steps|
  {
    if steps != [] {
      EmittedFrom(steps[1..]);
      forall x | x in Emitted(steps) ensures exists j :: 0 <= j < |steps| && steps[j] == Emit(x) {
        if x !in Emitted(steps[1..]) {
          assert steps[0] == Emit(x);
        } else {
          var j :| 0 <= j < |steps[1..]| && steps[1..][j] == Emit(x);
          assert steps[j + 1] == Emit(x);
        }
      }
    }
  }

  /** `step` is what the loop does for some chunk index cited by some support. */
  ghost predicate CitedStep(supports: seq<Support>, chunks: seq<Chunk>, follow: string -> (string, Option<string>),
                            step: ChunkStep)
  {
    exists i, k :: 0 <= i < |supports| && 0 <= k < |supports[i].chunkIndices|
                && step == StepFor(supports[i], supports[i].chunkIndices[k], chunks, follow)
  }

  lemma {:induction false} AllStepsFromCitedChunks(supports: seq<Support>, chunks: seq<Chunk>,
                                                   follow: string -> (string, Option<string>))
    ensures forall j :: 0 <= j < |AllSteps(supports, chunks, follow)| ==>
      CitedStep(supports, chunks, follow, AllSteps(supports, chunks, follow)[j])
    decreases |supports|
  {
    if supports != [] {
      AllStepsFromCitedChunks(supports[1..], chunks, follow);
      var head := SupportSteps(supports[0], chunks, follow);
      var tail := AllSteps(supports[1..], chunks, follow);
      var steps := head + tail;
      forall j | 0 <= j < |steps|
        ensures CitedStep(supports, chunks, follow, steps[j])
      {
        if j < |head| {
          assert steps[j] == StepFor(supports[0], supports[0].chunkIndices[j], chunks, follow);
        } else {
          var jt := j - |head|;
          assert 0 <= jt < |tail| && steps[j] == tail[jt];
          assert CitedStep(supports[1..], chunks, follow, tail[jt]);
          var i, k :| 0 <= i < |supports[1..]| && 0 <= k < |supports[1..][i].chunkIndices|
                   && tail[jt] == StepFor(supports[1..][i], supports[1..][i].chunkIndices[k], chunks, follow);
          assert steps[j] == StepFor(supports[i + 1], supports[i + 1].chunkIndices[k], chunks, follow);
        }
      }
    }
  }

  /**
   * Every selected reference was emitted for a chunk index cited by some
   * support: the index is in Python's range, the chunk has a web record,
   * and the reference's content is that support's non-empty text.
   */
  lemma ReferencesComeFromCitedChunks(response: GeminiResponse, maxReferences: int,
                                      follow: string -> (string, Option<string>))
    ensures forall x :: x in SelectReferences(response, maxReferences, follow) ==>
      && |response.candidates| > 0 && response.candidates[0].metadata.Some?
      && var m := response.candidates[0].metadata.value;
         exists i, k :: 0 <= i < |m.supports| && 0 <= k < |m.supports[i].chunkIndices|
           && StepFor(m.supports[i], m.supports[i].chunkIndices[k], m.chunks, follow) == Emit(x)
           && -|m.chunks| <= m.supports[i].chunkIndices[k] < |m.chunks|
           && PyIndex(m.chunks, m.supports[i].chunkIndices[k]).web.Some?
           && x.content == m.supports[i].text != ""
  {
    if |response.candidates| > 0 && response.candidates[0].metadata.Some? {
      var m := response.candidates[0].metadata.value;
      var steps := AllSteps(m.supports, m.chunks, follow);
      SelectionBounds(response, maxReferences, follow);
      EmittedFrom(steps);
      AllStepsFromCitedChunks(m.supports, m.chunks, follow);
      var refs := SelectReferences(response, maxReferences, follow);
      forall x | x in refs
        ensures (exists i, k :: 0 <= i < |m.supports| && 0 <= k < |m.supports[i].chunkIndices|
                  && StepFor(m.supports[i], m.supports[i].chunkIndices[k], m.chunks, follow) == Emit(x)
                  && -|m.chunks| <= m.supports[i].chunkIndices[k] < |m.chunks|
                  && PyIndex(m.chunks, m.supports[i].chunkIndices[k]).web.Some?
                  && x.content == m.supports[i].text != "")
      {
        assert x in Emitted(steps);
        var j :| 0 <= j < |steps| && steps[j] == Emit(x);
        assert CitedStep(m.supports, m.chunks, follow, steps[j]);
      }
    }
  }

  lemma {:induction false} AllStepsFrom(supports: seq<Support>, i: nat, chunks: seq<Chunk>,
                                        follow: string -> (string, Option<string>))
    requires i < |supports|
    ensures AllSteps(supports[i..], chunks, follow)
         == SupportSteps(supports[i], chunks, follow) + AllSteps(supports[i + 1..], chunks, follow)
  {
    assert supports[i..][1..] == supports[i + 1..];
  }

  lemma CollectFull(steps: seq<ChunkStep>, maxReferences: int, acc: seq<Reference>)
    requires |acc| >= maxReferences
    ensures Collect(steps, maxReferences, acc) == Some(acc)
  {
  }

  /** Running two step sequences one after the other is running the first, then the second on its result. */
  lemma {:induction false} CollectAppend(steps: seq<ChunkStep>, rest: seq<ChunkStep>, maxReferences: int, acc: seq<Reference>)
    ensures Collect(steps + rest, maxReferences, acc)
         == match Collect(steps, maxReferences, acc)
            case None => None
            case Some(a) => Collect(rest, maxReferences, a)
    decreases |steps|
  {
    if |acc| >= maxReferences {
      CollectFull(steps + rest, maxReferences, acc);
      CollectFull(rest, maxReferences, acc);
    } else if steps == [] {
      assert steps + rest == rest;
    } else {
      assert (steps + rest)[1..] == steps[1..] + rest;
      match steps[0]
      case Skip => CollectAppend(steps[1..], rest, maxReferences, acc);
      case Emit(reference) => CollectAppend(steps[1..], rest, maxReferences, acc + [reference]);
      case Crash =>
    }
  }

  /**
   * The inner loop of `extract_references`: walk one support's chunk
   * indices, appending to `refs0` until `maxReferences` are held. `crashed`
   * reports an `IndexError` escaping the per-chunk `try`.
   */
  method CollectSupport(support: Support, chunks: seq<Chunk>, follow: string -> (string, Option<string>),
                        maxReferences: int, refs0: seq<Reference>)
    returns (refs: seq<Reference>, crashed: bool)
    requires |refs0| < maxReferences
    ensures crashed <==> Collect(SupportSteps(support, chunks, follow), maxReferences, refs0).None?
    ensures !crashed ==> Collect(SupportSteps(support, chunks, follow), maxReferences, refs0) == Some(refs)
  {
    ghost var steps := SupportSteps(support, chunks, follow);
    ghost var segment := Collect(steps, maxReferences, refs0);
    refs := refs0;
    var indices := support.chunkIndices;
    var j := 0;
    while j < |indices|
      invariant 0 <= j <= |indices|
      invariant |refs| < maxReferences
      invariant Collect(steps[j..], maxReferences, refs) == segment
    {
      assert steps[j..][0] == steps[j] == StepFor(support, indices[j], chunks, follow);
      assert steps[j..][1..] == steps[j + 1..];
      var idx := indices[j];
      if idx >= |chunks| {
        j := j + 1;
        continue;
      }
      if idx < -|chunks| {
        return refs, true;
      }
      var chunk := if idx >= 0 then chunks[idx] else chunks[|chunks| + idx];
      if chunk.web.None? {
        j := j + 1;
        continue;
      }
      var (finalUrl, actualTitle) := follow(chunk.web.value.uri);
      var text := support.text;
      if text == "" {
        j := j + 1;
        continue;
      }
      var confidence := if |support.confidenceScores| > 0 then Some(support.confidenceScores[0]) else None;
      var title := if actualTitle.Some? && actualTitle.value != "" then actualTitle.value else chunk.web.value.title;
      refs := refs + [Reference(text, finalUrl, title, confidence)];
      if |refs| >= maxReferences {
        CollectFull(steps[j + 1..], maxReferences, refs);
        return refs, false;
      }
      j := j + 1;
    }
    assert steps[j..] == [];
    crashed := false;
  }

  /** The nested loops of `extract_references`, proved to compute `SelectReferences`. */
  method ExtractReferences(response: GeminiResponse, maxReferences: int, follow: string -> (string, Option<string>))
    returns (refs: seq<Reference>)
    ensures refs == SelectReferences(response, maxReferences, follow)
    ensures |refs| <= Quota(maxReferences)
  {
    SelectionBounds(response, maxReferences, follow);
    if |response.candidates| == 0 {
      return [];
    }
    var metadata := response.candidates[0].metadata;
    if metadata.None? {
      return [];
    }
    var supports := metadata.value.supports;
    var chunks := metadata.value.chunks;
    ghost var target := Collect(AllSteps(supports, chunks, follow), maxReferences, []);
    refs := [];
    var i := 0;
    while i < |supports|
      invariant 0 <= i <= |supports|
      invariant Collect(AllSteps(supports[i..], chunks, follow), maxReferences, refs) == target
    {
      if |refs| >= maxReferences {
        break;
      }
      var support := supports[i];
      AllStepsFrom(supports, i, chunks, follow);
      CollectAppend(SupportSteps(support, chunks, follow), AllSteps(supports[i + 1..], chunks, follow), maxReferences, refs);
      if |support.chunkIndices| == 0 {
        i := i + 1;
        continue;
      }
      var crashed;
      refs, crashed := CollectSupport(support, chunks, follow, maxReferences, refs);
      if crashed {
        // IndexError escapes the per-chunk try; the outer handler answers []
        return [];
      }
      i := i + 1;
    }
    if i == |supports| {
      assert supports[i..] == [];
    } else {
      CollectFull(AllSteps(supports[i..], chunks, follow), maxReferences, refs);
    }
  }

  // ---------------------------------------------------------------------
  // search_web
  // ---------------------------------------------------------------------

  const MaxRetries := 3

  /** A configured key "${NAME}" is read from the environment variable NAME; any other is used as is. */
  function ResolveKey(configured: string, env: string -> Option<string>): (r: Option<string>)
    ensures !("${" <= configured && |configured| > 0 && configured[|configured| - 1] == '}') ==> r == Some(configured)
    ensures "${" <= configured && |configured| > 0 && configured[|configured| - 1] == '}' ==>
      |configured| >= 3 && r == env(configured[2..|configured| - 1])
  {
    if "${" <= configured && |configured| > 0 && configured[|configured| - 1] == '}' then
      env(configured[2..|configured| - 1])
    else Some(configured)
  }

  /** A key written "${NAME}" is read from the environment variable NAME, whatever NAME is. */
  lemma ResolveKeyReadsEnvironment(name: string, env: string -> Option<string>)
    ensures ResolveKey("${" + name + "}", env) == env(name)
  {
    var configured := "${" + name + "}";
    assert configured[2..|configured| - 1] == name;
  }

  /** A key not of the form "${NAME}" is used exactly as configured. */
  lemma ResolveKeyUsedAsWritten(configured: string, env: string -> Option<string>)
    requires forall name :: configured != "${" + name + "}"
    ensures ResolveKey(configured, env) == Some(configured)
  {
    if |configured| >= 3 {
      var name := configured[2..|configured| - 1];
      assert configured != "${" + name + "}";
      assert "${" <= configured && configured[|configured| - 1] == '}' ==> configured == "${" + name + "}";
    }
  }

  /** One call of the search backend: an answer, or the exception it raised. */
  datatype Attempt = Answered(response: GeminiResponse) | AttemptError(message: string)

  /** The `data` of a successful search. */
  datatype SearchData = SearchData(prompt: string, searchQueries: seq<string>, response: string,
                                   references: seq<Reference>)

  /** What an answered attempt becomes. */
  function AnswerResult(query: string, response: GeminiResponse, maxReferences: int,
                        follow: string -> (string, Option<string>)): ToolResult<SearchData>
  {
    if |response.candidates| == 0 then Failed("No response from Gemini")
    else match response.candidates[0].metadata
      case None => Failed("No grounding metadata in response")
      case Some(m) =>
        Succeeded(SearchData(query, m.webSearchQueries, response.text,
                             SelectReferences(response, maxReferences, follow)))
  }

  /** The retry policy: the first answered attempt decides; if every attempt raised, the last error. */
  function Retry(query: string, attempts: seq<Attempt>, maxReferences: int,
                 follow: string -> (string, Option<string>)): ToolResult<SearchData>
    requires |attempts| > 0
    decreases |attempts|
  {
    match attempts[0]
    case Answered(response) => AnswerResult(query, response, maxReferences, follow)
    case AttemptError(message) =>
      if |attempts| == 1 then Failed(message) else Retry(query, attempts[1..], maxReferences, follow)
  }

  /** The three attempts the backend would answer with the key `key`. */
  function Attempts(key: string, generate: (string, nat) -> Attempt): (r: seq<Attempt>)
    ensures |r| == MaxRetries && forall k :: 0 <= k < MaxRetries ==> r[k] == generate(key, k)
  {
    seq(MaxRetries, k requires 0 <= k < MaxRetries => generate(key, k))
  }

  /** A later attempt matters only when every earlier one raised. */
  lemma {:induction false} RetryUsesFirstAnswer(query: string, attempts: seq<Attempt>, n: nat, maxReferences: int,
                                                follow: string -> (string, Option<string>))
    requires n < |attempts| && attempts[n].Answered?
    requires forall k :: 0 <= k < n ==> attempts[k].AttemptError?
    ensures Retry(query, attempts, maxReferences, follow) == AnswerResult(query, attempts[n].response, maxReferences, follow)
    decreases n
  {
    if n > 0 {
      RetryUsesFirstAnswer(query, attempts[1..], n - 1, maxReferences, follow);
    }
  }

  /** When every attempt raised, the error of the last one is reported. */
  lemma {:induction false} RetryReportsLastError(query: string, attempts: seq<Attempt>, maxReferences: int,
                                                 follow: string -> (string, Option<string>))
    requires |attempts| > 0
    requires forall k :: 0 <= k < |attempts| ==> attempts[k].AttemptError?
    ensures Retry(query, attempts, maxReferences, follow) == Failed(attempts[|attempts| - 1].message)
    decreases |attempts|
  {
    if |attempts| > 1 {
      RetryReportsLastError(query, attempts[1..], maxReferences, follow);
    }
  }

  /**
   * What `search_web` answers: an empty query is refused before anything
   * else; then the key is resolved and a missing or empty one is refused;
   * then the backend is tried up to three times.
   */
  function SearchOutcome(query: string, configuredKey: string, env: string -> Option<string>, maxReferences: int,
                         generate: (string, nat) -> Attempt, follow: string -> (string, Option<string>))
    : (r: ToolResult<SearchData>)
    ensures query == "" ==> r == Failed("No query provided")
    ensures query != "" && (ResolveKey(configuredKey, env) == None || ResolveKey(configuredKey, env) == Some("")) ==>
      r == Failed("Gemini API key not configured")
    ensures r.status == "success" ==>
      && query != "" && ResolveKey(configuredKey, env).Some? && ResolveKey(configuredKey, env).value != ""
      && r.payload.Some? && r.error.None?
      && r.payload.value.prompt == query
      && |r.payload.value.references| <= Quota(maxReferences)
    ensures r.status == "success" || (r.status == "error" && r.payload.None? && r.error.Some?)
    ensures query != "" && ResolveKey(configuredKey, env).Some? && ResolveKey(configuredKey, env).value != "" ==>
      r == Retry(query, Attempts(ResolveKey(configuredKey, env).value, generate), maxReferences, follow)
  {
    if query == "" then Failed("No query provided")
    else
      var key := ResolveKey(configuredKey, env);
      if key.None? || key.value == "" then Failed("Gemini API key not configured")
      else
        RetryShape(query, Attempts(key.value, generate), maxReferences, follow);
        Retry(query, Attempts(key.value, generate), maxReferences, follow)
  }

  /** Whatever the attempts, the retry answers an envelope; a success carries the query and a bounded list. */
  lemma {:induction false} RetryShape(query: string, attempts: seq<Attempt>, maxReferences: int,
                                      follow: string -> (string, Option<string>))
    requires |attempts| > 0
    ensures var r := Retry(query, attempts, maxReferences, follow);
      && (r.status == "success" ==>
          r.payload.Some? && r.error.None? && r.payload.value.prompt == query
          && |r.payload.value.references| <= Quota(maxReferences))
      && (r.status == "success" || (r.status == "error" && r.payload.None? && r.error.Some?))
    decreases |attempts|
  {
    match attempts[0]
    case Answered(response) =>
      SelectionBounds(response, maxReferences, follow);
    case AttemptError(message) =>
      if |attempts| > 1 {
        RetryShape(query, attempts[1..], maxReferences, follow);
      }
  }

  /**
   * With a query and a usable key, the first of the three backend calls that
   * does not raise decides what `search_web` answers.
   */
  lemma SearchUsesFirstAnswer(query: string, configuredKey: string, env: string -> Option<string>, maxReferences: int,
                              generate: (string, nat) -> Attempt, follow: string -> (string, Option<string>), n: nat)
    requires query != "" && ResolveKey(configuredKey, env).Some? && ResolveKey(configuredKey, env).value != ""
    requires n < MaxRetries && generate(ResolveKey(configuredKey, env).value, n).Answered?
    requires forall k: nat :: k < n ==> generate(ResolveKey(configuredKey, env).value, k).AttemptError?
    ensures SearchOutcome(query, configuredKey, env, maxReferences, generate, follow)
         == AnswerResult(query, generate(ResolveKey(configuredKey, env).value, n).response, maxReferences, follow)
  {
    var attempts := Attempts(ResolveKey(configuredKey, env).value, generate);
    RetryUsesFirstAnswer(query, attempts, n, maxReferences, follow);
  }

  /** With a query and a usable key, three raising backend calls give the third call's error. */
  lemma SearchReportsLastError(query: string, configuredKey: string, env: string -> Option<string>, maxReferences: int,
                               generate: (string, nat) -> Attempt, follow: string -> (string, Option<string>))
    requires query != "" && ResolveKey(configuredKey, env).Some? && ResolveKey(configuredKey, env).value != ""
    requires forall k: nat :: k < MaxRetries ==> generate(ResolveKey(configuredKey, env).value, k).AttemptError?
    ensures SearchOutcome(query, configuredKey, env, maxReferences, generate, follow)
         == Failed(generate(ResolveKey(configuredKey, env).value, MaxRetries - 1).message)
  {
    var attempts := Attempts(ResolveKey(configuredKey, env).value, generate);
    RetryReportsLastError(query, attempts, maxReferences, follow);
  }

  /**
   * `search_web` calls the backend at most three times, always with the
   * resolved key: two backends that agree on attempts 0, 1 and 2 under that
   * key give the same answer.
   */
  lemma SearchTriesThreeTimes(query: string, configuredKey: string, env: string -> Option<string>, maxReferences: int,
                              generate: (string, nat) -> Attempt, other: (string, nat) -> Attempt,
                              follow: string -> (string, Option<string>))
    requires ResolveKey(configuredKey, env).Some? ==>
      forall k: nat :: k < MaxRetries ==>
        generate(ResolveKey(configuredKey, env).value, k) == other(ResolveKey(configuredKey, env).value, k)
    ensures SearchOutcome(query, configuredKey, env, maxReferences, generate, follow)
         == SearchOutcome(query, configuredKey, env, maxReferences, other, follow)
  {
    var key := ResolveKey(configuredKey, env);
    if query != "" && key.Some? && key.value != "" {
      assert Attempts(key.value, generate) == Attempts(key.value, other);
    }
  }

  /** `search_web`, with its retry loop. */
  method SearchWeb(query: string, configuredKey: string, env: string -> Option<string>, maxReferences: int,
                   generate: (string, nat) -> Attempt, follow: string -> (string, Option<string>))
    returns (r: ToolResult<SearchData>)
    ensures r == SearchOutcome(query, configuredKey, env, maxReferences, generate, follow)
  {
    if query == "" {
      return Failed("No query provided");
    }
    var key := ResolveKey(configuredKey, env);
    if key.None? || key.value == "" {
      return Failed("Gemini API key not configured");
    }
    ghost var attempts := Attempts(key.value, generate);
    var attempt := 0;
    while attempt < MaxRetries
      invariant 0 <= attempt < MaxRetries
      invariant Retry(query, attempts[attempt..], maxReferences, follow) == Retry(query, attempts, maxReferences, follow)
      decreases MaxRetries - attempt
    {
      assert attempts[attempt..][0] == attempts[attempt] == generate(key.value, attempt);
      match generate(key.value, attempt) {
        case AttemptError(message) =>
          if attempt == MaxRetries - 1 {
            return Failed(message);
          }
          assert attempts[attempt..][1..] == attempts[attempt + 1..];
        case Answered(response) =>
          if |response.candidates| == 0 {
            return Failed("No response from Gemini");
          }
          var metadata := response.candidates[0].metadata;
          if metadata.None? {
            return Failed("No grounding metadata in response");
          }
          var refs := ExtractReferences(response, maxReferences, follow);
          return Succeeded(SearchData(query, metadata.value.webSearchQueries, response.text, refs));
      }
      attempt := attempt + 1;
    }
  }
}
