/**
 * The result envelope both tools return (`WebSearchResponse`,
 * `ScraperResponse`): a status string, a payload on success and an error
 * message on failure.
 */
module Envelope {
  import opened Wrappers

  datatype ToolResult<T> = ToolResult(status: string, payload: Option<T>, error: Option<string>)

  function Succeeded<T>(payload: T): ToolResult<T> {
    ToolResult("success", Some(payload), None)
  }

  function Failed<T>(message: string): ToolResult<T> {
    ToolResult("error", None, Some(message))
  }

  /** What a tool call does as seen by its caller: it returns an envelope or raises. */
  datatype ToolOutcome<T> = Returned(result: ToolResult<T>) | Raised(message: string)
}
