/** The fields of a `Cast` client that the execution engine reads. */
module ClientState {
  import opened Wrappers
  import opened Backoff
  import opened Responses
  import opened RetryHooks

  /** A configured client: the retry budget (attempts beyond the first),
      the backoff strategy (nil until a setter installs one), the retry
      hooks in evaluation order, the client-wide header, and the names of
      the registered circuits in the order the circuit manager lists them. */
  datatype Cast = Cast(
    retry: int,
    stg: Option<Strategy>,
    retryHooks: seq<RetryHook>,
    header: Header,
    circuits: seq<string>)

  /** The client `New` starts from before applying any setter. */
  function Defaults(): (c: Cast)
    ensures c.retry == 0 && c.stg == None && c.header == map[] && c.circuits == []
    ensures c.retryHooks == DefaultRetryHooks()
  {
    Cast(0, None, DefaultRetryHooks(), map[], [])
  }
}
