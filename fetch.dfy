/** What the data hooks get back from a `fetch` call. */
module Fetch {
  import opened JsValues

  /** A decoded response body, or the error `response.json()` rejects with. */
  datatype Body = Json(value: Value) | Unparsable(reason: Failure)

  /** What `fetch` gives back: a rejection, or a response with its status and body. */
  datatype Response = NetworkError(reason: Failure) | Answered(status: int, body: Body)

  /** `response.ok`. */
  predicate IsOkStatus(status: int)
  {
    200 <= status <= 299
  }
}
