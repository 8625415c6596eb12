/** The response an attempt hands to the retry hooks and to the caller. */
module Responses {
  import opened Wrappers

  /** `http.Header`: each key maps to its list of values. */
  type Header = map<string, seq<string>>

  /** The values of a header key, empty when the key is absent. */
  function Values(h: Header, key: string): (vs: seq<string>)
    ensures key !in h ==> vs == []
  {
    if key in h then h[key] else []
  }

  /** The parts of the transport's `*http.Response` a hook can read through
      `Response`: status code, header and declared content length. */
  datatype RawResponse = RawResponse(statusCode: int, header: Header, contentLength: int)

  /** What `genReply` builds after each counted attempt: the raw response,
      if the transport returned one, the status code copied from it (0 when
      there was none) and the body that was read (empty when there was none). */
  datatype Reply = Reply(raw: Option<RawResponse>, statusCode: int, body: seq<bv8>)

  const StatusOK: int := 200

  /** `Response.StatusOk`. */
  predicate StatusOk(r: Reply) {
    r.statusCode == StatusOK
  }

  /** `Response.Header`: the raw response's header, or an empty header when
      there is no raw response. */
  function ResponseHeader(r: Reply): (h: Header)
    ensures r.raw.None? ==> h == map[]
    ensures r.raw.Some? ==> h == r.raw.value.header
  {
    match r.raw
    case None => map[]
    case Some(raw) => raw.header
  }

  /** `Response.Size`: the raw response's declared content length, or 0
      when there is no raw response. */
  function Size(r: Reply): (n: int)
    ensures r.raw.None? ==> n == 0
    ensures r.raw.Some? ==> n == r.raw.value.contentLength
  {
    match r.raw
    case None => 0
    case Some(raw) => raw.contentLength
  }
}
