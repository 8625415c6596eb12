/** Error values the engine sees and the default retry classification.

    Go's `error` interface is modelled as a closed datatype of the kinds the
    classification tells apart. `*url.Error` implements `net.Error` in the
    Go standard library: its `Timeout()` and `Temporary()` ask the wrapped
    error, so a url error wrapping a temporary network error is itself a
    temporary network error. */
module Errors {

  datatype Error =
    | Nil                                        // the nil error
    | NetErr(temporary: bool, timeout: bool)     // a value implementing net.Error
    | UrlErr(inner: Error)                       // *url.Error wrapping inner
    | EOF                                        // the io.EOF sentinel
    | CastErr(msg: string)                       // the package's own Error string type
    | OtherErr(msg: string)                      // any other error, e.g. from fmt.Errorf

  /** `Temporary()` of a value implementing `net.Error`; false for values
      that do not implement it. */
  function Temporary(e: Error): (flag: bool) {
    match e
    case NetErr(t, _) => t
    case UrlErr(inner) => Temporary(inner)
    case _ => false
  }

  /** `Timeout()` of a value implementing `net.Error`. */
  function Timeout(e: Error): (flag: bool) {
    match e
    case NetErr(_, t) => t
    case UrlErr(inner) => Timeout(inner)
    case _ => false
  }

  /** The type assertion `err.(net.Error)`. */
  predicate ImplementsNetError(e: Error) {
    e.NetErr? || e.UrlErr?
  }

  /** `isNetworkErr`: a network error that reports itself temporary or a
      timeout. */
  function IsNetworkErr(e: Error): (b: bool)
    ensures e.NetErr? ==> (b <==> e.temporary || e.timeout)
    ensures e.UrlErr? ==> (b <==> Temporary(e.inner) || Timeout(e.inner))
    ensures !e.NetErr? && !e.UrlErr? ==> !b
  {
    ImplementsNetError(e) && (Temporary(e) || Timeout(e))
  }

  /** `isEOF`: a url error whose wrapped error is exactly the EOF sentinel.
      The test looks one level deep only, so a bare EOF is not caught. */
  function IsEOF(e: Error): (b: bool)
    ensures b <==> e == UrlErr(EOF)
    ensures e == EOF ==> !b
  {
    e.UrlErr? && e.inner == EOF
  }

  /** `ShouldRetry`: the two retryable kinds, tried in order. */
  function ShouldRetry(e: Error): (retry: bool)
    ensures retry <==> IsNetworkErr(e) || IsEOF(e)
    ensures e == Nil ==> !retry
  {
    if IsNetworkErr(e) then true
    else if IsEOF(e) then true
    else false
  }

  /** The classification, case by case: a temporary or timed-out network
      error retries; a url error retries when it wraps EOF or when what it
      wraps is a temporary or timed-out network error; nil, a bare EOF, the
      package's own errors and any other error do not. */
  lemma ShouldRetryCases(e: Error)
    ensures e.NetErr? ==> (ShouldRetry(e) <==> e.temporary || e.timeout)
    ensures e.UrlErr? && e.inner == EOF ==> ShouldRetry(e)
    ensures e.UrlErr? && e.inner != EOF ==>
      (ShouldRetry(e) <==> Temporary(e.inner) || Timeout(e.inner))
    ensures e.Nil? || e.EOF? || e.CastErr? || e.OtherErr? ==> !ShouldRetry(e)
  {
  }

  /** Wrapping a retryable network error in a url error keeps it
      retryable, and wrapping the bare EOF makes it retryable; but the EOF
      test looks one level deep only, so an EOF wrapped twice is not
      retried. */
  lemma UrlWrapping(inner: Error)
    ensures IsNetworkErr(inner) ==> ShouldRetry(UrlErr(inner))
    ensures inner == EOF ==> !ShouldRetry(inner) && ShouldRetry(UrlErr(inner))
    ensures ShouldRetry(UrlErr(EOF)) && !ShouldRetry(UrlErr(UrlErr(EOF)))
  {
  }

  /** `Error(s).Error()`: the text of the package's own error type. Other
      kinds are not given a text in this model. */
  function Text(e: Error): (s: string)
    requires e.CastErr?
  {
    e.msg
  }

  /** `Error(s).Error()` returns `s` unchanged: converting a string into the
      package's error type and back is the identity, and distinct texts give
      distinct errors. */
  lemma TextRoundTrip(s: string, t: string)
    ensures Text(CastErr(s)) == s
    ensures CastErr(s) == CastErr(t) <==> s == t
  {
  }
}
