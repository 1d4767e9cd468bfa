/**
 * The two tool endpoints: `/search_web`, limited under "web_search", and
 * `/scrape_url`, limited under "url_scraper", each with its own configured
 * limits, and the mapping from a tool's outcome to the HTTP answer.
 */
module Routes {
  import opened Wrappers
  import opened Envelope
  import opened RateLimiting
  import opened Admission
  import WebSearch
  import UrlScraper

  const SearchToolName := "web_search"
  const ScrapeToolName := "url_scraper"

  /** A tool's configured `rate_limit` block. */
  datatype RateLimitConfig = RateLimitConfig(maxRequests: int, timeWindowSeconds: int)

  /** The detail an HTTP exception keeps: the message given, or the status phrase "Bad Request" when it is `None`. */
  function MessageText(message: Option<string>): string {
    match message
    case Some(m) => m
    case None => "Bad Request"
  }

  /**
   * The handler body. An envelope with status "error" raises a 400 inside
   * the `try`; the `except Exception` around it catches that 400 and raises
   * a 500 whose detail is the 400's string form, "400: <message>". Any
   * other raised exception becomes a 500 with its message.
   */
  function HandleToolOutcome<T>(outcome: ToolOutcome<T>): (r: HttpResponse<ToolResult<T>>)
    ensures r.Ok? <==> outcome.Returned? && outcome.result.status != "error"
    ensures r.Ok? ==> r.body == outcome.result
    ensures r.Failure? ==> r.status == 500
    ensures outcome.Raised? ==> r.detail == outcome.message
    ensures outcome.Returned? && outcome.result.status == "error" ==>
      r.detail == "400: " + MessageText(outcome.result.error)
  {
    match outcome
    case Raised(message) => Failure(500, message)
    case Returned(result) =>
      if result.status == "error" then Failure(500, "400: " + MessageText(result.error))
      else Ok(result)
  }

  /** The body of `handle_url_scrape`: run `scrape_url`, map its envelope. */
  function ScrapeAnswer(url: string, renderJs: bool, f: UrlScraper.Fetchers): HttpResponse<ToolResult<string>> {
    HandleToolOutcome(Returned(UrlScraper.ScrapeUrl(url, renderJs, f)))
  }

  /** The body of `handle_web_search`: run `search_web`, map its envelope. */
  function SearchAnswer(query: string, configuredKey: string, env: string -> Option<string>,
                        maxReferences: int, generate: (string, nat) -> WebSearch.Attempt,
                        follow: string -> (string, Option<string>)): HttpResponse<ToolResult<WebSearch.SearchData>>
  {
    HandleToolOutcome(Returned(WebSearch.SearchOutcome(query, configuredKey, env, maxReferences, generate, follow)))
  }

  /**
   * What a client of /scrape_url sees once admitted: 200 with the envelope
   * exactly when scraping succeeded, otherwise 500 carrying "400: " and the
   * scraper's error text; never a 400.
   */
  lemma ScrapeAnswerSeenByClient(url: string, renderJs: bool, f: UrlScraper.Fetchers)
    ensures var result := UrlScraper.ScrapeUrl(url, renderJs, f);
      var r := ScrapeAnswer(url, renderJs, f);
      && (r.Ok? <==> result.status == "success")
      && (r.Failure? ==> r.status == 500 && result.error.Some? && r.detail == "400: " + result.error.value)
  {
  }

  /**
   * What a client of /search_web sees once admitted: 200 with the envelope
   * exactly when the search succeeded, otherwise 500 carrying "400: " and
   * the search error text; never a 400.
   */
  lemma SearchAnswerSeenByClient(query: string, configuredKey: string, env: string -> Option<string>,
                                 maxReferences: int, generate: (string, nat) -> WebSearch.Attempt,
                                 follow: string -> (string, Option<string>))
    ensures var result := WebSearch.SearchOutcome(query, configuredKey, env, maxReferences, generate, follow);
      var r := SearchAnswer(query, configuredKey, env, maxReferences, generate, follow);
      && (r.Ok? <==> result.status == "success")
      && (r.Failure? ==> r.status == 500 && result.error.Some? && r.detail == "400: " + result.error.value)
  {
  }

  /** The application once routes.py is imported: both decorators applied, in order. */
  class Server {
    const registry: Registry
    const search: RateLimitedEndpoint
    const scrape: RateLimitedEndpoint

    ghost predicate Valid()
      reads this, registry, registry.limiters.Values, search, scrape
    {
      && registry.Valid()
      && SearchToolName in registry.limiters && registry.limiters[SearchToolName] == search.limiter
      && ScrapeToolName in registry.limiters && registry.limiters[ScrapeToolName] == scrape.limiter
      && search.toolName == SearchToolName && scrape.toolName == ScrapeToolName
    }

    constructor (registry: Registry, searchLimit: RateLimitConfig, scrapeLimit: RateLimitConfig)
      requires registry.Valid() && registry.limiters == map[]
      modifies registry
      ensures Valid() && this.registry == registry
      ensures search.limiter != scrape.limiter
      ensures search.limiter.maxRequests == searchLimit.maxRequests
      ensures search.limiter.timeWindowSeconds == searchLimit.timeWindowSeconds
      ensures scrape.limiter.maxRequests == scrapeLimit.maxRequests
      ensures scrape.limiter.timeWindowSeconds == scrapeLimit.timeWindowSeconds
      ensures search.limiter.calls == [] && scrape.limiter.calls == []
    {
      this.registry := registry;
      search := new RateLimitedEndpoint(registry, SearchToolName, searchLimit.maxRequests, searchLimit.timeWindowSeconds);
      scrape := new RateLimitedEndpoint(registry, ScrapeToolName, scrapeLimit.maxRequests, scrapeLimit.timeWindowSeconds);
    }

    /** The two endpoints never share a limiter: their tool names differ and the registry maps names to distinct limiters. */
    lemma LimitersDistinct()
      requires Valid()
      ensures search.limiter != scrape.limiter
    {
    }

    /** A step of one registered limiter that keeps it consistent keeps the registry consistent. */
    twostate lemma RegistryStaysValid(changed: RateLimiter)
      requires old(Valid()) && changed in old(registry.limiters.Values) && changed.Valid()
      requires unchanged(this, registry)
      requires forall l :: l in old(registry.limiters.Values) && l != changed ==> unchanged(l)
      ensures Valid()
    {
      forall name | name in registry.limiters
        ensures registry.limiters[name].Valid()
      {
        assert registry.limiters[name] in old(registry.limiters.Values);
        if registry.limiters[name] != changed {
          assert unchanged(registry.limiters[name]);
        }
      }
    }

    /**
     * POST /search_web: the key check, then the "web_search" limiter, then
     * `search_web` and the mapping of its envelope. The other endpoint's
     * limiter is untouched.
     */
    method HandleWebSearch(now: int, header: Option<string>, configured: Option<string>, query: string,
                           configuredKey: string, env: string -> Option<string>, maxReferences: int,
                           generate: (string, nat) -> WebSearch.Attempt,
                           follow: string -> (string, Option<string>))
      returns (r: HttpResponse<ToolResult<WebSearch.SearchData>>)
      requires Valid() && search.limiter.CanCallAt(now)
      modifies search.limiter
      ensures Valid()
      ensures unchanged(scrape.limiter)
      ensures !KeyAccepted(header, configured) ==> r == Forbidden() && unchanged(search.limiter)
      ensures KeyAccepted(header, configured) ==>
        var l := search.limiter;
        var d := Step(old(l.requests), now, l.maxRequests, l.Window());
        && l.calls == old(l.calls) + [now]
        && r == if d.admitted
                then SearchAnswer(query, configuredKey, env, maxReferences, generate, follow)
                else RateLimitExceeded(SearchToolName)
    {
      LimitersDistinct();
      r := Serve(search, now, header, configured,
                 () => SearchAnswer(query, configuredKey, env, maxReferences, generate, follow));
      RegistryStaysValid(search.limiter);
    }

    /**
     * POST /scrape_url: the key check, then the "url_scraper" limiter, then
     * `scrape_url` and the mapping of its envelope. The other endpoint's
     * limiter is untouched.
     */
    method HandleUrlScrape(now: int, header: Option<string>, configured: Option<string>, url: string,
                           renderJs: bool, fetchers: UrlScraper.Fetchers)
      returns (r: HttpResponse<ToolResult<string>>)
      requires Valid() && scrape.limiter.CanCallAt(now)
      modifies scrape.limiter
      ensures Valid()
      ensures unchanged(search.limiter)
      ensures !KeyAccepted(header, configured) ==> r == Forbidden() && unchanged(scrape.limiter)
      ensures KeyAccepted(header, configured) ==>
        var l := scrape.limiter;
        var d := Step(old(l.requests), now, l.maxRequests, l.Window());
        && l.calls == old(l.calls) + [now]
        && r == if d.admitted
                then ScrapeAnswer(url, renderJs, fetchers)
                else RateLimitExceeded(ScrapeToolName)
    {
      LimitersDistinct();
      r := Serve(scrape, now, header, configured,
                 () => ScrapeAnswer(url, renderJs, fetchers));
      RegistryStaysValid(scrape.limiter);
    }
  }
}
