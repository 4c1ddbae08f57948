/**
 * The part of an API Gateway HTTP event that the two Lambda handlers read.
 */
module LambdaEvents {
  import opened Wrappers

  /**
   * `event["requestContext"]["http"]["method"]` (absent when any level is
   * missing), the truth value of `event.get("isBase64Encoded")`, and
   * `event["body"]` (absent when the key is missing).
   */
  datatype Event = Event(httpMethod: Option<string>, isBase64Encoded: bool, body: Option<string>)

  /** The CORS preflight test both handlers start with. */
  predicate IsPreflight(e: Event) {
    e.httpMethod == Some("OPTIONS")
  }
}
