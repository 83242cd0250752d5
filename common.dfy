/** Option and Result, and the JSON shapes a list endpoint can answer with. */
module Common {

  datatype Option<+T> = None | Some(value: T)

  datatype Result<+T, +E> = Success(value: T) | Failure(error: E)

  /** The body of a list response, reduced to the distinctions the pages make:
      `null`, a non-object scalar (string, number, boolean), a bare array of
      records, or an object whose `data` key is absent (`None`) or holds
      another body. */
  datatype Body<+T> =
    | Null
    | Scalar
    | Array(elements: seq<T>)
    | Object(data: Option<Body<T>>)

  /** What a request produced: a parsed body, or a failure carrying the
      message the HTTP client reports for it. The task page's client rejects
      a non-2xx answer, so there it is a `RequestFailed`; the dashboard's
      `fetch` resolves on any status and parses the body, so there a non-2xx
      answer is `Received(body)` and meets the shape guard like any other. */
  datatype Outcome<+T> =
    | Received(body: Body<T>)
    | RequestFailed(message: seq<char>)
}
