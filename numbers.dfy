/** Integer helpers shared by the limiter and the reference selection. */
module Numbers {

  /**
   * How many items a `len(items) >= limit` guard lets accumulate: `limit`
   * itself, or none at all when `limit` is zero or negative.
   */
  function Quota(limit: int): nat {
    if limit > 0 then limit else 0
  }
}
