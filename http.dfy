/** The HTTP exchanges of the client, as values.  Nothing is sent anywhere:
    a request is the record of what would be sent, and the server's reply is
    an input of the operation that sends it. */
module Http {
  import opened Basics
  import opened Dicts
  import opened Json

  /** A received response; `body` is None when `response.json()` would raise. */
  datatype Response = Response(status: int, text: string, body: Option<Json>)
  {
    /** `response.ok`: `raise_for_status()` raises for 4xx and 5xx statuses only. */
    predicate Ok()
    {
      !(400 <= status < 600)
    }
  }

  /** What a `requests` call produces: a response, or a transport failure
      (connection refused, timeout, DNS), raised as a `RequestException`. */
  datatype Reply = NetworkError(reason: string) | Received(response: Response)

  datatype Request = Request(verb: string, url: string, params: Dict<Json>, body: Json, headers: Dict<string>)
}
