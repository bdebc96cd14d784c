/** What the collectors see of an HTTP exchange through `requests`: either
    the call raises before any response arrives (a connection error or a
    timeout), or a response with a status code and a body arrives. */
module Http {
  import opened Wrappers

  /** A GET: the URL and, for the forum listing, the `page` query
      parameter. */
  datatype Request = Request(url: string, page: Option<int>)

  datatype HttpOutcome<B> =
    | NetworkError              // raised with no response attached
    | Reply(status: int, body: B)

  /** The statuses for which `Response.raise_for_status()` raises: 4xx and
      5xx. */
  predicate ErrorStatus(status: int) {
    400 <= status < 600
  }

  /** The call, followed by `raise_for_status()`, raises. */
  predicate Failed<B>(o: HttpOutcome<B>) {
    o.NetworkError? || ErrorStatus(o.status)
  }

  /** The status code the raised exception carries, if it carries a
      response: only an error status does. */
  function ErrorCode<B>(o: HttpOutcome<B>): (r: Option<int>)
    ensures r.Some? <==> o.Reply? && ErrorStatus(o.status)
    ensures r.Some? ==> r.value == o.status
  {
    if o.Reply? && ErrorStatus(o.status) then Some(o.status) else None
  }

  /** The server is modelled as the outcome of each attempt of each
      request; the attempts of one request are numbered from 0. */
  type Server<!B> = (Request, nat) -> HttpOutcome<B>
}
