/**
 * The URL scraper tool: URL clean-up, the markdown post-processing, and the
 * choice between the browser path and the plain HTTP path. The network, the
 * browser and the HTML-to-markdown converter are parameters (`Fetchers`):
 * only what the tool does with their answers is modelled.
 */
module UrlScraper {
  import opened Text
  import opened Envelope

  const GithubHost := "github.com"

  /**
   * `clean_url`: strip the URL; if a space is left, a GitHub URL is rebuilt
   * from its first two whitespace-separated words joined by "/", any other
   * URL has each space replaced by "%20".
   */
  function CleanUrl(url: string): (r: string)
    ensures ' ' !in r && IsStripped(r)
    ensures ' ' !in Strip(url) ==> r == Strip(url)
    ensures ' ' in Strip(url) && !Contains(Strip(url), GithubHost) ==>
      r == ReplaceAll(Strip(url), " ", "%20")
    ensures ' ' in Strip(url) && Contains(Strip(url), GithubHost) ==>
      var parts := Words(Strip(url));
      |parts| >= 2 && r == parts[0] + "/" + parts[1]
  {
    var u := Strip(url);
    if ' ' in u then
      if Contains(u, GithubHost) then
        var parts := Words(u);
        SpacedTextHasTwoWords(u);
        if |parts| >= 2 then GithubJoin(parts[0], parts[1]) else u
      else
        ReplaceAllKeepsStripped(u, " ", "%20");
        ReplaceSpacesLeavesNoSpace(u);
        ReplaceAll(u, " ", "%20")
    else u
  }

  /** Two words joined by "/" hold no whitespace and so are stripped. */
  function GithubJoin(first: string, second: string): (r: string)
    requires first != [] && second != [] && NoWhitespace(first) && NoWhitespace(second)
    ensures NoWhitespace(r) && IsStripped(r) && ' ' !in r
  {
    var r := first + "/" + second;
    assert forall i :: 0 <= i < |r| ==> r[i] == '/' || r[i] in first || r[i] in second;
    r
  }

  /** Cleaning a cleaned URL changes nothing. */
  lemma CleanUrlIdempotent(url: string)
    ensures CleanUrl(CleanUrl(url)) == CleanUrl(url)
  {
  }

  /** `replace("\n\n\n", "\n\n")` on the markdown: one pass, so longer runs are only shortened. */
  function CollapseBlankLines(s: string): string {
    ReplaceAll(s, "\n\n\n", "\n\n")
  }

  /** The post-processing both paths apply to the converted markdown: strip, then collapse once. */
  function PostProcess(markdown: string): (r: string)
    ensures IsStripped(r)
    ensures |r| <= |markdown|
  {
    var s := Strip(markdown);
    ReplaceAllKeepsStripped(s, "\n\n\n", "\n\n");
    ReplaceAllShrinks(s, "\n\n\n", "\n\n");
    CollapseBlankLines(s)
  }

  function Newlines(n: nat): (r: string)
    ensures |r| == n && forall i :: 0 <= i < n ==> r[i] == '\n'
  {
    seq(n, _ => '\n')
  }

  /** A run of n newlines comes out as n - n/3: every full group of three loses one. */
  lemma {:induction false} CollapseNewlineRun(n: nat)
    ensures CollapseBlankLines(Newlines(n)) == Newlines(n - n / 3)
    decreases n
  {
    var s := Newlines(n);
    if n >= 3 {
      assert "\n\n\n" <= s;
      assert s[3..] == Newlines(n - 3);
      CollapseNewlineRun(n - 3);
      assert "\n\n" + Newlines(n - 3 - (n - 3) / 3) == Newlines(n - n / 3);
    } else {
      ShortTextLacksPattern(s, "\n\n\n");
    }
  }

  /** The collapse is not idempotent: four newlines become three, and three become two. */
  lemma CollapseNotIdempotent()
    ensures CollapseBlankLines(Newlines(4)) == Newlines(3)
    ensures CollapseBlankLines(CollapseBlankLines(Newlines(4))) == Newlines(2)
    ensures CollapseBlankLines(CollapseBlankLines(Newlines(4))) != CollapseBlankLines(Newlines(4))
  {
    CollapseNewlineRun(4);
    CollapseNewlineRun(3);
  }

  /** What the browser gives back for a page: its HTML, or the exception it raised. */
  datatype Rendered = Page(html: string) | BrowserError(message: string)

  /** What an HTTP GET gives back: a status and a body, or the exception it raised. */
  datatype HttpReply = Reply(status: int, body: string) | RequestError(message: string)

  /** The collaborators the scraper calls and cannot see into. */
  datatype Fetchers = Fetchers(
    render: string -> Rendered,       // Playwright: load, wait, scroll, read the page
    get: string -> HttpReply,         // `requests.get`
    fallbackGet: string -> HttpReply, // `urllib3` pool manager request
    markdownify: string -> string)

  /** `raise_for_status` raises for the 4xx and 5xx statuses only. */
  predicate RaisesForStatus(status: int) {
    400 <= status < 600
  }

  /** A scraper envelope: stripped content on success, a message on error. */
  predicate WellFormed(r: ToolResult<string>) {
    || (r.status == "success" && r.payload.Some? && r.error.None? && IsStripped(r.payload.value))
    || (r.status == "error" && r.payload.None? && r.error.Some?)
  }

  function ScrapeWithPlaywright(url: string, f: Fetchers): (r: ToolResult<string>)
    ensures WellFormed(r)
    ensures r.status == "error" ==> "Playwright error: " <= r.error.value
  {
    match f.render(CleanUrl(url))
    case Page(html) => Succeeded(PostProcess(f.markdownify(html)))
    case BrowserError(message) => Failed("Playwright error: " + message)
  }

  /**
   * The plain path: `requests.get` on the cleaned URL; a request error or an
   * error status falls back to `urllib3`, where a status of 400 or more
   * becomes the error "HTTP <status>".
   */
  function ScrapeWithRequests(url: string, f: Fetchers): (r: ToolResult<string>)
    ensures WellFormed(r)
  {
    FetchWithRequests(CleanUrl(url), f)
  }

  /** The plain path once the URL `u` has been cleaned. */
  function FetchWithRequests(u: string, f: Fetchers): (r: ToolResult<string>)
    ensures WellFormed(r)
  {
    match f.get(u)
    case Reply(status, body) =>
      if RaisesForStatus(status) then ScrapeFallback(u, f) else Succeeded(PostProcess(f.markdownify(body)))
    case RequestError(_) => ScrapeFallback(u, f)
  }

  function ScrapeFallback(u: string, f: Fetchers): (r: ToolResult<string>)
    ensures WellFormed(r)
  {
    match f.fallbackGet(u)
    case Reply(status, body) =>
      if status >= 400 then Failed("HTTP " + IntString(status)) else Succeeded(PostProcess(f.markdownify(body)))
    case RequestError(message) => Failed(message)
  }

  /**
   * `scrape_url`: the browser path exactly when `renderJs` holds. Either way
   * the answer is a well-formed envelope, and successful content has been
   * stripped.
   */
  function ScrapeUrl(url: string, renderJs: bool, f: Fetchers): (r: ToolResult<string>)
    ensures r.status == "success" || r.status == "error"
    ensures r.status == "success" ==> r.payload.Some? && r.error.None? && IsStripped(r.payload.value)
    ensures r.status == "error" ==> r.payload.None? && r.error.Some?
    ensures renderJs && r.status == "error" ==> "Playwright error: " <= r.error.value
  {
    if renderJs then ScrapeWithPlaywright(url, f) else ScrapeWithRequests(url, f)
  }

  /** With `renderJs` only the browser is consulted; without it, only the two HTTP clients. */
  lemma ScrapeDispatch(url: string, f: Fetchers, render: string -> Rendered,
                       get: string -> HttpReply, fallbackGet: string -> HttpReply)
    ensures ScrapeUrl(url, true, f.(get := get, fallbackGet := fallbackGet)) == ScrapeUrl(url, true, f)
    ensures ScrapeUrl(url, false, f.(render := render)) == ScrapeUrl(url, false, f)
  {
    var browserOnly := f.(get := get, fallbackGet := fallbackGet);
    assert browserOnly.render == f.render && browserOnly.markdownify == f.markdownify;
    assert ScrapeWithPlaywright(url, browserOnly) == ScrapeWithPlaywright(url, f);
    var httpOnly := f.(render := render);
    assert httpOnly.get == f.get && httpOnly.fallbackGet == f.fallbackGet && httpOnly.markdownify == f.markdownify;
    assert ScrapeFallback(CleanUrl(url), httpOnly) == ScrapeFallback(CleanUrl(url), f);
    assert ScrapeWithRequests(url, httpOnly) == ScrapeWithRequests(url, f);
  }

  /** Only the cleaned URL reaches the network: scraping a cleaned URL gives the same answer. */
  lemma ScrapeSeesCleanedUrl(url: string, renderJs: bool, f: Fetchers)
    ensures ScrapeUrl(CleanUrl(url), renderJs, f) == ScrapeUrl(url, renderJs, f)
  {
    CleanUrlIdempotent(url);
    SameCleanedUrlSameScrape(CleanUrl(url), url, renderJs, f);
  }

  /** Two URLs that clean to the same URL scrape alike. */
  lemma SameCleanedUrlSameScrape(x: string, y: string, renderJs: bool, f: Fetchers)
    requires CleanUrl(x) == CleanUrl(y)
    ensures ScrapeUrl(x, renderJs, f) == ScrapeUrl(y, renderJs, f)
  {
    if renderJs {
      assert ScrapeWithPlaywright(x, f) == ScrapeWithPlaywright(y, f);
    } else {
      assert ScrapeWithRequests(x, f) == ScrapeWithRequests(y, f);
    }
  }
}
