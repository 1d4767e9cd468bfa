# agent_toolkit, modelled in Dafny

agent_toolkit is a small HTTP service. It exposes two tools, `/search_web` (a grounded web search through Gemini) and `/scrape_url` (a page fetched and converted to markdown). Every request goes through the same steps:
- an API-key middleware;
- a per-tool sliding-window rate limiter, installed by the `rate_limit` decorator;
- the tool itself, whose envelope (`status`, payload, `error`) is mapped to an HTTP answer.

This project models those steps and proves what they promise.

- `rate_limiter.dfy` (module `RateLimiting`) models the limiter and its registry.
  - `RateLimiter` is a class. Its request timestamps are a `seq<int>` of microseconds, which `CanMakeRequest` purges from the front and appends to in place.
  - `Registry` is a class holding a `map<string, RateLimiter>`.
  - The limiter's single step is specified by the functions `Purge` and `Step`.
  - A whole run of calls is specified by `Replay`. Its main theorem: over any run whose instants reach the limiter in clock order, no closed interval one window long contains more admitted calls than `max_requests`; `OutOfOrderInstantsBreakWindowBound` shows that the order is needed.
- `admission.dfy` (module `Admission`) models the API-key check and the decorator's wrapper (`RateLimitedEndpoint`). The wrapper holds the limiter it looked up once, when it was built.
- `routes.dfy` (module `Routes`) models the mapping from a tool outcome to an HTTP answer, and the `Server` that wires both endpoints to their own limiters.
- `url_scraper.dfy` (module `UrlScraper`) models `clean_url`, the markdown post-processing, the two fetch paths and the `render_js` dispatch.
- `web_search.dfy` (module `WebSearch`) models:
  - `follow_redirect` and its title blacklist;
  - the nested selection loop of `extract_references`, as a method proved equal to a step-by-step specification;
  - the `${VAR}` key interpolation;
  - the three-attempt retry of `search_web`.
- `text.dfy` (module `Text`) gives the Python `str` operations the tools use, with CPython's semantics:
  - `strip()` and `split()`, over the `str.isspace()` set;
  - the `in` substring test;
  - `replace`, a single left-to-right pass over non-overlapping occurrences.
- `envelope.dfy`, `wrappers.dfy` and `numbers.dfy` hold the tool envelope, `Option`, and the `Quota` bound shared by the limiter and the reference selection.

Time is an explicit integer parameter in microseconds. The purge test `(now - t).total_seconds() > time_window_seconds` becomes `now - t > time_window_seconds * 1_000_000`. Every call to the limiter requires `now` to be no earlier than the previous call.

The network, the browser, the Gemini client, `markdownify`, the HTML-title regex and the process environment are function-typed parameters. Only what the code does with their answers is modelled.

## Model

| member | source | states |
|---|---|---|
| RateLimiting.Purge | agent_toolkit/server/rate_limiter.py:17-18 | only entries more than one window older than `now` are dropped, and the entry left at the front is within the window |
| RateLimiting.PurgeIsSuffix | agent_toolkit/server/rate_limiter.py:17-18 | the purge only pops from the front: what remains is a suffix of the deque |
| RateLimiting.Step | agent_toolkit/server/rate_limiter.py:14-23 | one call admits exactly when fewer than `max_requests` entries survive the purge. An admission appends `now` and leaves at most `max_requests` entries; a refusal appends nothing and leaves at least `max_requests`. A non-positive `max_requests` never admits |
| RateLimiting.WindowBoundaryIsInclusive | agent_toolkit/server/rate_limiter.py:17 | an entry exactly one window old is kept and still blocks a one-slot limiter; one microsecond later it is purged |
| RateLimiting.FiveSecondWindowExample | agent_toolkit/server/rate_limiter.py:17-22 | a one-request, five-second limiter admits at 0, refuses at exactly 5 s, and admits just after |
| RateLimiting.StepKeepsSorted | agent_toolkit/server/rate_limiter.py:17-21 | a deque sorted oldest-first, with every entry no later than `now`, stays sorted after the call |
| RateLimiting.PurgedEntriesAreFresh | agent_toolkit/server/rate_limiter.py:17-18 | on a sorted deque, every entry left after the purge satisfies `now - t <= window` |
| RateLimiting.RecentOfFresh | agent_toolkit/server/rate_limiter.py:17-18 | a history all within the window loses nothing to the purge criterion |
| RateLimiting.PurgeOfSortedIsRecent | agent_toolkit/server/rate_limiter.py:17-18 | on a sorted deque, popping stale entries from the front equals filtering out every stale entry |
| RateLimiting.RecentOfRecent | agent_toolkit/server/rate_limiter.py:17-18 | purging at an earlier instant and then at a later one equals purging once at the later one |
| RateLimiting.RecentOfConcat | agent_toolkit/server/rate_limiter.py:17-18 | the purge criterion distributes over concatenation |
| RateLimiting.WindowCountOfAppend | agent_toolkit/server/rate_limiter.py:20-21 | appending an admission adds one to the count of exactly those windows that contain it |
| RateLimiting.WindowCountAtMostRecent | agent_toolkit/server/rate_limiter.py:17-20 | a closed window ending at or after `now` holds no more admissions than the deque does after the purge at `now` |
| RateLimiting.AdmitKeepsWindowBound | agent_toolkit/server/rate_limiter.py:20-22 | admitting while fewer than `max_requests` recent entries remain keeps every window within the quota |
| RateLimiting.AdmittedStaySorted | agent_toolkit/server/rate_limiter.py:21 | admissions are recorded in clock order |
| RateLimiting.StepMatchesRecent | agent_toolkit/server/rate_limiter.py:17-22 | after a call, the deque is exactly the admitted instants still within the window |
| RateLimiting.StepKeepsConsistent | agent_toolkit/server/rate_limiter.py:14-23 | one call preserves the invariant linking the deque to the admission history: sorted, within the quota, equal to the recent admissions, every window bounded |
| RateLimiting.ReplayIsConsistent | agent_toolkit/server/rate_limiter.py:14-23 | every run of calls with a non-decreasing clock ends in a state satisfying that invariant |
| RateLimiting.ReplayIsWindowBounded | agent_toolkit/server/rate_limiter.py:14-23 | over any run with a non-decreasing clock, no closed interval one window long holds more than `max_requests` admitted calls, and the deque never exceeds `max_requests` |
| RateLimiting.OutOfOrderInstantsBreakWindowBound | agent_toolkit/server/rate_limiter.py:14-23 | when the instants reach the purge out of clock order, as they can when the clock is read before the lock is taken, the bound fails: 0 s, 0.4 s, 10.5 s, 5 s against two slots per ten seconds are all admitted, three within one window |
| RateLimiting.ReplayExtend | agent_toolkit/server/rate_limiter.py:14-23 | a run extended by one call is the old run followed by one `can_make_request`, and stays window-bounded |
| RateLimiting.ZeroQuotaNeverAdmits | agent_toolkit/server/rate_limiter.py:20 | with `max_requests = 0` no call is ever admitted and the deque stays empty |
| RateLimiting.RateLimiter.constructor | agent_toolkit/server/rate_limiter.py:8-12 | a new limiter keeps the given limits and starts with an empty deque |
| RateLimiting.RateLimiter.CanMakeRequest | agent_toolkit/server/rate_limiter.py:14-23 | the purge loop and the admit step compute `Step` on the old deque, record the call, keep the deque within the quota and keep every window bounded |
| RateLimiting.Registry.constructor | agent_toolkit/server/rate_limiter.py:30 | the registry starts empty |
| RateLimiting.Registry.GetRateLimiter | agent_toolkit/server/rate_limiter.py:32-36 | a registered name returns its limiter, ignoring the new limits, and changes nothing; an unregistered name gets a fresh limiter built from the arguments, and no other entry changes |
| Admission.KeyAccepted | agent_toolkit/server/app.py:19-20 | a request passes the key check only when both the header and the configured key are present, and then exactly when the header is non-empty and equal to the configured key |
| Admission.UnsetKeyRejectsAll | agent_toolkit/server/app.py:20 | with no configured key, every request is refused |
| Admission.MissingKeyRejected | agent_toolkit/server/app.py:19-20 | a missing or empty header is refused whatever key is configured |
| Admission.RateLimitedEndpoint.constructor | agent_toolkit/server/app.py:29-30 | the decorator fetches its limiter from the registry once, with the registry's get-or-create semantics |
| Admission.RateLimitedEndpoint.Invoke | agent_toolkit/server/app.py:33-39 | the wrapper consults the limiter first. On refusal it answers 429 "Rate limit exceeded for <tool>. Please try again later." without running the handler; on admission it answers what the handler answers. The limiter step is exactly `Step` |
| Admission.Serve | agent_toolkit/server/app.py:17-25 | a request failing the key check gets 403 "Invalid API key" and leaves the limiter untouched; any other request goes through the wrapper |
| Routes.HandleToolOutcome | agent_toolkit/server/routes.py:20-26 | a non-error envelope is returned unchanged. An "error" envelope reaches the client as 500 with detail "400: <error>". A raised exception becomes 500 with its message |
| Routes.ScrapeAnswerSeenByClient | agent_toolkit/server/routes.py:41-47 | an admitted scrape answers 200 exactly when scraping succeeded, else 500 carrying the scraper's error behind "400: " |
| Routes.SearchAnswerSeenByClient | agent_toolkit/server/routes.py:20-26 | an admitted search answers 200 exactly when the search succeeded, else 500 carrying the search error behind "400: " |
| Routes.Server.constructor | agent_toolkit/server/routes.py:12-17 | importing the routes registers "web_search" and "url_scraper", each with its own configured limits, on two distinct limiters |
| Routes.Server.HandleWebSearch | agent_toolkit/server/routes.py:12-26 | POST /search_web: key check, then the "web_search" limiter, then `search_web` mapped by `HandleToolOutcome`; the scrape limiter is untouched |
| Routes.Server.HandleUrlScrape | agent_toolkit/server/routes.py:33-47 | POST /scrape_url: key check, then the "url_scraper" limiter, then `scrape_url` mapped by `HandleToolOutcome`; the search limiter is untouched |
| Text.Strip | agent_toolkit/tools/url_scraper.py:18 | `strip()` leaves no leading or trailing whitespace, changes nothing on a stripped text, never lengthens, and is empty exactly for an all-whitespace text |
| Text.StripCutsOnlyEndWhitespace | agent_toolkit/tools/url_scraper.py:18 | `strip()` removes whitespace from the two ends and nothing else: the result is the start of what follows the leading whitespace, and everything of the input before and after it is whitespace |
| Text.Words | agent_toolkit/tools/url_scraper.py:22 | every word `split()` yields is non-empty and free of whitespace |
| Text.WordsAreMaximalRuns | agent_toolkit/tools/url_scraper.py:22 | `split()` is empty exactly on an all-whitespace text; otherwise its first word is the whole run that starts after the leading whitespace and stops at the next whitespace character, and the other words are the split of the rest |
| Text.SpacedTextFirstTwoWords | agent_toolkit/tools/url_scraper.py:21-24 | on a stripped URL holding a space, the two words `clean_url` joins are the run before the first whitespace and the run after the whitespace that follows it |
| Text.SpacedTextHasTwoWords | agent_toolkit/tools/url_scraper.py:19-23 | a stripped text containing a space splits into at least two words |
| Text.ReplaceSpacesLeavesNoSpace | agent_toolkit/tools/url_scraper.py:27 | replacing " " by "%20" leaves no space |
| Text.ReplaceAllKeepsStripped | agent_toolkit/tools/url_scraper.py:62 | replacing a pattern that starts and ends with whitespace keeps a stripped text stripped |
| Text.ReplaceAllShrinks | agent_toolkit/tools/url_scraper.py:78-79 | replacing by something shorter never lengthens, and strictly shortens when the pattern occurs |
| Text.ShortTextLacksPattern | agent_toolkit/tools/url_scraper.py:79 | a text shorter than a pattern cannot contain it |
| UrlScraper.CleanUrl | agent_toolkit/tools/url_scraper.py:16-28 | the result has no space and no surrounding whitespace. Without a space it is the stripped URL. A spaced non-GitHub URL has every space replaced by "%20". A spaced GitHub URL becomes its first two words joined by "/", further words dropped |
| UrlScraper.CleanUrlIdempotent | agent_toolkit/tools/url_scraper.py:16-28 | cleaning a cleaned URL changes nothing |
| UrlScraper.PostProcess | agent_toolkit/tools/url_scraper.py:78-79 | the post-processed markdown is stripped and no longer than the converter's output |
| UrlScraper.CollapseNewlineRun | agent_toolkit/tools/url_scraper.py:79 | one pass turns a run of n newlines into n - n/3 newlines |
| UrlScraper.CollapseNotIdempotent | agent_toolkit/tools/url_scraper.py:79 | four newlines become three, and a second pass makes two: the collapse is not idempotent |
| UrlScraper.ScrapeUrl | agent_toolkit/tools/url_scraper.py:30-120 | the answer is a success carrying stripped content, or an error carrying a message; a browser-path error reads "Playwright error: ..." |
| UrlScraper.ScrapeWithPlaywright | agent_toolkit/tools/url_scraper.py:30-68 | the browser path answers stripped content on success, and on any browser error a message starting "Playwright error: " |
| UrlScraper.ScrapeWithRequests | agent_toolkit/tools/url_scraper.py:70-108 | the plain path, with its `urllib3` fallback, answers stripped content on success and a message on error |
| UrlScraper.ScrapeDispatch | agent_toolkit/tools/url_scraper.py:117-120 | with `render_js` the answer depends on the browser only; without it, on the two HTTP clients only |
| UrlScraper.ScrapeSeesCleanedUrl | agent_toolkit/tools/url_scraper.py:30-75 | both paths see only the cleaned URL |
| WebSearch.FilterTitle | agent_toolkit/tools/web_search.py:71-75 | a kept title never contains a blacklisted phrase, and a title without one is always kept |
| WebSearch.FollowRedirect | agent_toolkit/tools/web_search.py:32-78 | the URL is cleaned as `clean_url` does. On failure the cleaned URL comes back with no title; on success the resolved URL comes back with the page's extracted title passed through the blacklist filter, so never a blacklisted title |
| WebSearch.FirstScore | agent_toolkit/tools/web_search.py:136-137 | a reference's confidence is present exactly when the support has confidence scores, and is then the first of them |
| WebSearch.StepFor | agent_toolkit/tools/web_search.py:114-145 | an index at or past the end is skipped; one below `-len` raises; a chunk without web data or a support with empty text gives nothing. A reference is emitted exactly when the index is in range, the chunk has web data and the support's text is non-empty; the reference carries the text, the resolved URL, the fetched title or else the chunk's title, and the first confidence score if any |
| WebSearch.CollectTakesFirstEmitted | agent_toolkit/tools/web_search.py:104-149 | the loop keeps exactly the first emitted references, as many as the limit allows; it can fail only on a raising step |
| WebSearch.CrashFreeCollectSucceeds | agent_toolkit/tools/web_search.py:156-158 | without an out-of-range negative index, selection never falls into the outer handler |
| WebSearch.CollectAppend | agent_toolkit/tools/web_search.py:104-152 | selecting over two segments is selecting over the first and continuing on the second |
| WebSearch.SelectionBounds | agent_toolkit/tools/web_search.py:104-149 | at most `max_references` references, none when it is zero or less; they are a prefix of the emitted references, in support order and then chunk order |
| WebSearch.ReferencesComeFromCitedChunks | agent_toolkit/tools/web_search.py:109-133 | every reference comes from an in-range chunk index cited by some support, whose chunk has web data, and carries that support's non-empty text |
| WebSearch.CollectSupport | agent_toolkit/tools/web_search.py:114-152 | the inner loop over one support's chunk indices, with its skips and its break at the limit, computes the selection over that support's steps; it reports a crash exactly when an index below `-len` escapes the per-chunk `try` |
| WebSearch.ExtractReferences | agent_toolkit/tools/web_search.py:80-158 | the nested loops, with their skips and breaks, compute `SelectReferences`: nothing without a candidate or metadata, nothing after an escaped `IndexError`, at most `max_references` |
| WebSearch.ResolveKeyReadsEnvironment | agent_toolkit/tools/web_search.py:171-174 | for every name, a key written "${NAME}" resolves to the environment variable NAME, absent when the variable is unset |
| WebSearch.ResolveKeyUsedAsWritten | agent_toolkit/tools/web_search.py:171-174 | a key that is not "${NAME}" for any name is used exactly as configured |
| WebSearch.RetryUsesFirstAnswer | agent_toolkit/tools/web_search.py:183-222 | the first attempt that does not raise decides the answer |
| WebSearch.RetryReportsLastError | agent_toolkit/tools/web_search.py:223-229 | when every attempt raises, the last attempt's message is the error |
| WebSearch.RetryShape | agent_toolkit/tools/web_search.py:194-229 | every retry outcome is a well-formed envelope; a success echoes the query and carries at most `max_references` references |
| WebSearch.SearchOutcome | agent_toolkit/tools/web_search.py:160-229 | an empty query gives "No query provided" before anything else. A missing or empty key gives "Gemini API key not configured". Otherwise the answer is the retry over the three attempts made with the resolved key, and a success echoes the query with a bounded reference list |
| WebSearch.SearchUsesFirstAnswer | agent_toolkit/tools/web_search.py:183-222 | with a query and a usable key, the first of the three backend calls that does not raise decides the answer: no candidate, no metadata, or success with the selected references |
| WebSearch.SearchReportsLastError | agent_toolkit/tools/web_search.py:183-229 | with a query and a usable key, when all three backend calls raise, the answer is the error of the third |
| WebSearch.SearchTriesThreeTimes | agent_toolkit/tools/web_search.py:182-186 | the backend is called only for attempts 0, 1 and 2 and only with the resolved key: two backends that agree there give the same answer |
| WebSearch.SearchWeb | agent_toolkit/tools/web_search.py:160-229 | the method, with its retry loop, computes `SearchOutcome` |

## Left out

- `wait_for_slot` (agent_toolkit/server/rate_limiter.py:25-27) is not modelled. It is an unbounded sleep-and-poll loop with no termination guarantee.
- The limiter's lock and threading in general are not modelled. `CanMakeRequest` is one atomic step that reads the clock, purges and appends. The registry's unlocked check-then-insert (agent_toolkit/server/rate_limiter.py:34-35) could race when two threads register the same name; the model does not show this.
- `datetime.now()` and the float `total_seconds()`: time is an integer count of microseconds passed in by the caller, and the clock is assumed not to run backwards.
- RateLimiting.RateLimiter.CanMakeRequest: its precondition requires each call's instant to be no earlier than the previous call's, which the source does not guarantee. A clock stepping back is outside the model. So are threaded callers: the clock is read at agent_toolkit/server/rate_limiter.py:15, outside the lock taken at line 16, so a thread can reach the purge with an instant earlier than one another thread has already appended. That breaks the window bound: with two slots and a ten-second window, calls at 0 s, 0.4 s, 10.5 s and then 5 s are all admitted, three of them within ten seconds (`RateLimiting.OutOfOrderInstantsBreakWindowBound`). The HTTP path keeps its instants in order: the endpoint wrapper (agent_toolkit/server/app.py:33-34) calls `can_make_request` synchronously on the event loop, with no `await` between reading the clock and appending.
- The network (`requests`, `urllib3`), Playwright, the Gemini client, `markdownify` and the process environment are opaque functions. Their own timeouts, redirects, user agents and scrolling are not modelled.
- UrlScraper.ScrapeUrl: exceptions other than the modelled request errors are not modelled. In particular, a UTF-8 decoding failure of the fallback body is not shown becoming an error envelope.
- The regex of `extract_title_from_html` (agent_toolkit/tools/web_search.py:27-30) is a function parameter. The Google-redirect branch of `follow_redirect` (lines 52-69) is folded into one resolving function.
- WebSearch.ExtractReferences: JSON fields present with a null value, or of the wrong type, are not modelled; absent lists and texts read as empty. In the source their effect depends on their type and on where they are read. A null chunk, for example, raises at line 121, before the per-chunk `try`, so the outer handler (lines 156-158) returns no reference at all for the response. A bad field read inside the `try` (lines 126-144) only skips that chunk.
- WebSearch.SearchOutcome: a `web_search_queries` field present with a null value is passed on as null (line 218 has no `or []`); the model's query list cannot be null.
- Configuration loading (agent_toolkit/config/loader.py) is not part of this model. The limits, the maximum reference count and the configured keys are parameters.
- Logging (the `logger` calls in agent_toolkit/tools/web_search.py) and console output (agent_toolkit/tools/url_scraper.py:114-116) are not modelled. They have no effect on any result.
- FastAPI routing, middleware registration, pydantic validation and JSON serialisation are not modelled.
- Routes.HandleToolOutcome: the detail "400: <message>" follows Starlette's string form of an HTTP exception, "<status>: <detail>". With no message, the detail is the status phrase "Bad Request".
- A negative `time_window_seconds` is accepted, as in the source. Every entry is then stale at the next call, and the window property is vacuous. The link between the deque and the recent admissions is stated only for windows of zero or more.
