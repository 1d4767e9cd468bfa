/**
 * The admission steps every request passes: the API-key middleware, then,
 * for a tool endpoint, the rate-limit wrapper the `rate_limit` decorator
 * puts around the handler.
 */
module Admission {
  import opened Wrappers
  import opened RateLimiting

  /** What the client receives: the handler's body, or a status code with a `detail` text. */
  datatype HttpResponse<T> = Ok(body: T) | Failure(status: int, detail: string)

  /**
   * The middleware lets a request through only when its `X-API-Key` header
   * is present, non-empty and equal to the configured key; an unset
   * configured key (`None`) therefore lets nothing through.
   */
  function KeyAccepted(header: Option<string>, configured: Option<string>): (ok: bool)
    ensures header.None? || configured.None? ==> !ok
    ensures header.Some? && configured.Some? ==>
      (ok <==> header.value != "" && header.value == configured.value)
  {
    header.Some? && header.value != "" && configured == header
  }

  function Forbidden<T>(): HttpResponse<T> {
    Failure(403, "Invalid API key")
  }

  function RateLimitExceeded<T>(toolName: string): HttpResponse<T> {
    Failure(429, "Rate limit exceeded for " + toolName + ". Please try again later.")
  }

  /** Without a configured key every request is refused, whatever its header. */
  lemma UnsetKeyRejectsAll(header: Option<string>)
    ensures !KeyAccepted(header, None)
  {
  }

  /** A missing or empty header is refused, whatever key is configured. */
  lemma MissingKeyRejected(configured: Option<string>)
    ensures !KeyAccepted(None, configured) && !KeyAccepted(Some(""), configured)
  {
  }

  /**
   * A handler wrapped by the `rate_limit` decorator. The limiter is looked
   * up once, when the decorator is applied, and that same instance is
   * consulted on every call.
   */
  class RateLimitedEndpoint {
    const toolName: string
    const limiter: RateLimiter

    constructor (registry: Registry, toolName: string, maxRequests: int, timeWindowSeconds: int)
      requires registry.Valid()
      modifies registry
      ensures registry.Valid() && limiter.Valid()
      ensures this.toolName == toolName
      ensures toolName in registry.limiters && registry.limiters[toolName] == limiter
      ensures toolName in old(registry.limiters) ==>
        limiter == old(registry.limiters)[toolName] && registry.limiters == old(registry.limiters)
      ensures toolName !in old(registry.limiters) ==>
        && fresh(limiter)
        && limiter.maxRequests == maxRequests && limiter.timeWindowSeconds == timeWindowSeconds
        && limiter.requests == [] && limiter.calls == []
        && registry.limiters == old(registry.limiters)[toolName := limiter]
    {
      this.toolName := toolName;
      var found := registry.GetRateLimiter(toolName, maxRequests, timeWindowSeconds);
      limiter := found;
    }

    /**
     * The decorator's wrapper: asks the limiter first; on refusal answers
     * 429 naming the tool, otherwise answers whatever the handler answers.
     * Only an admitted call takes a slot.
     */
    method Invoke<T>(now: int, handler: () -> HttpResponse<T>) returns (r: HttpResponse<T>)
      requires limiter.Valid() && limiter.CanCallAt(now)
      modifies limiter
      ensures limiter.Valid()
      ensures var d := Step(old(limiter.requests), now, limiter.maxRequests, limiter.Window());
        && limiter.requests == d.requests
        && limiter.admitted == old(limiter.admitted) + (if d.admitted then [now] else [])
        && r == if d.admitted then handler() else RateLimitExceeded(toolName)
      ensures limiter.calls == old(limiter.calls) + [now]
    {
      var ok := limiter.CanMakeRequest(now);
      if !ok {
        return RateLimitExceeded(toolName);
      }
      r := handler();
    }
  }

  /**
   * One request to a rate-limited endpoint: the key check runs first and a
   * refused request never reaches the limiter, so it takes no slot.
   */
  method Serve<T>(endpoint: RateLimitedEndpoint, now: int, header: Option<string>, configured: Option<string>,
                  handler: () -> HttpResponse<T>)
    returns (r: HttpResponse<T>)
    requires endpoint.limiter.Valid() && endpoint.limiter.CanCallAt(now)
    modifies endpoint.limiter
    ensures endpoint.limiter.Valid()
    ensures !KeyAccepted(header, configured) ==> r == Forbidden() && unchanged(endpoint.limiter)
    ensures KeyAccepted(header, configured) ==>
      var l := endpoint.limiter;
      var d := Step(old(l.requests), now, l.maxRequests, l.Window());
      && l.requests == d.requests
      && l.calls == old(l.calls) + [now]
      && l.admitted == old(l.admitted) + (if d.admitted then [now] else [])
      && r == if d.admitted then handler() else RateLimitExceeded(endpoint.toolName)
  {
    if !KeyAccepted(header, configured) {
      return Forbidden();
    }
    r := endpoint.Invoke(now, handler);
  }
}
