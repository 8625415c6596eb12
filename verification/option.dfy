/** The setters that configure a client before use. */
module Options {
  import opened Wrappers
  import opened Backoff
  import opened Errors
  import opened Responses
  import opened RetryHooks
  import opened ClientState

  /** The setters of the engine's configuration, with their arguments. */
  datatype Setter =
    | WithRetry(retry: int)
    | WithLinearBackoffStrategy(slope: Duration)
    | WithConstantBackoffStrategy(interval: Duration)
    | WithExponentialBackoffStrategy(base: Duration, capacity: Duration)
    | WithExponentialBackoffEqualJitterStrategy(base: Duration, capacity: Duration)
    | WithExponentialBackoffFullJitterStrategy(base: Duration, capacity: Duration)
    | WithExponentialBackoffDecorrelatedJitterStrategy(base: Duration, capacity: Duration)
    | AddRetryHooks(hooks: seq<RetryHook>)
    | WithHeader(hdr: Header)
    | SetHeader(vv: seq<string>)
    | AddHeader(vv: seq<string>)

  /** The error a header setter returns for an odd-length argument list. */
  const OddHeaderArgs: Error := OtherErr("vv must have even params")

  /** `Header.Set`: the key now holds exactly the one value. */
  function HeaderSet(h: Header, key: string, value: string): (r: Header)
    ensures Values(r, key) == [value]
    ensures forall k :: k != key ==> Values(r, k) == Values(h, k)
  {
    h[key := [value]]
  }

  /** `Header.Add`: the value is appended to the key's list. */
  function HeaderAdd(h: Header, key: string, value: string): (r: Header)
    ensures Values(r, key) == Values(h, key) + [value]
    ensures forall k :: k != key ==> Values(r, k) == Values(h, k)
  {
    h[key := Values(h, key) + [value]]
  }

  /** The `(key, value)` pairs of an even-length list, applied left to
      right with `Set` (or with `Add` when `add` holds). */
  function ApplyPairs(h: Header, vv: seq<string>, add: bool): (r: Header)
    requires |vv| % 2 == 0
    decreases |vv|
  {
    if |vv| == 0 then h
    else
      var h' := if add then HeaderAdd(h, vv[0], vv[1]) else HeaderSet(h, vv[0], vv[1]);
      ApplyPairs(h', vv[2..], add)
  }

  /** The values paired with `key` in an argument list, in order. */
  function PairedValues(vv: seq<string>, key: string): (vs: seq<string>)
    requires |vv| % 2 == 0
    decreases |vv|
  {
    if |vv| == 0 then []
    else (if vv[0] == key then [vv[1]] else []) + PairedValues(vv[2..], key)
  }

  /** `AddHeader`'s pairs append, in argument order, every value given for
      a key to the values it already had; keys not mentioned keep theirs. */
  lemma {:induction false} AddPairsAppend(h: Header, vv: seq<string>, key: string)
    requires |vv| % 2 == 0
    ensures Values(ApplyPairs(h, vv, true), key) == Values(h, key) + PairedValues(vv, key)
    decreases |vv|
  {
    if |vv| != 0 {
      var h' := HeaderAdd(h, vv[0], vv[1]);
      AddPairsAppend(h', vv[2..], key);
    }
  }

  /** `SetHeader`'s pairs leave each key with the last value given for it,
      and keys not mentioned keep their values. */
  lemma {:induction false} SetPairsLastWins(h: Header, vv: seq<string>, key: string)
    requires |vv| % 2 == 0
    ensures PairedValues(vv, key) == [] ==> Values(ApplyPairs(h, vv, false), key) == Values(h, key)
    ensures PairedValues(vv, key) != [] ==>
      Values(ApplyPairs(h, vv, false), key) == [PairedValues(vv, key)[|PairedValues(vv, key)| - 1]]
    decreases |vv|
  {
    if |vv| != 0 {
      var h' := HeaderSet(h, vv[0], vv[1]);
      SetPairsLastWins(h', vv[2..], key);
    }
  }

  /** The strategy a setter installs, if it is a backoff setter. The
      decorrelated-jitter setter seeds `sleep` with `base`. */
  function StrategyOf(s: Setter): (stg: Option<Strategy>) {
    match s
    case WithLinearBackoffStrategy(slope) => Some(Linear(slope))
    case WithConstantBackoffStrategy(interval) => Some(Constant(interval))
    case WithExponentialBackoffStrategy(base, capacity) => Some(Exponential(base, capacity))
    case WithExponentialBackoffEqualJitterStrategy(base, capacity) => Some(EqualJitter(base, capacity))
    case WithExponentialBackoffFullJitterStrategy(base, capacity) => Some(FullJitter(base, capacity))
    case WithExponentialBackoffDecorrelatedJitterStrategy(base, capacity) =>
      Some(DecorrelatedJitter(base, capacity, base))
    case _ => None
  }

  /** A setter that returns an error: a header setter given an odd number
      of arguments. */
  predicate Rejects(s: Setter) {
    (s.SetHeader? || s.AddHeader?) && |s.vv| % 2 != 0
  }

  /** Runs one setter on a client. */
  function Apply(c: Cast, s: Setter): (r: Result<Cast, Error>)
    ensures r.Failure? <==> Rejects(s)
    ensures r.Failure? ==> r.error == OddHeaderArgs
    ensures r.Success? ==> r.value.circuits == c.circuits
    ensures r.Success? ==> r.value.retry == (if s.WithRetry? then s.retry else c.retry)
    ensures r.Success? ==> r.value.stg == (if StrategyOf(s).Some? then StrategyOf(s) else c.stg)
    ensures r.Success? ==> r.value.retryHooks == c.retryHooks + (if s.AddRetryHooks? then s.hooks else [])
    ensures r.Success? && s.WithHeader? ==> r.value.header == s.hdr
    ensures r.Success? && !s.SetHeader? && !s.AddHeader? && !s.WithHeader? ==> r.value.header == c.header
  {
    match s
    case WithRetry(retry) => Success(c.(retry := retry))
    case AddRetryHooks(hooks) => Success(c.(retryHooks := c.retryHooks + hooks))
    case WithHeader(hdr) => Success(c.(header := hdr))
    case SetHeader(vv) =>
      if |vv| % 2 != 0 then Failure(OddHeaderArgs)
      else Success(c.(header := ApplyPairs(c.header, vv, false)))
    case AddHeader(vv) =>
      if |vv| % 2 != 0 then Failure(OddHeaderArgs)
      else Success(c.(header := ApplyPairs(c.header, vv, true)))
    case _ => Success(c.(stg := StrategyOf(s)))
  }

  /** Each backoff setter replaces whatever strategy was installed with its
      own variant and parameters; the decorrelated one starts `sleep` at
      `base`. */
  lemma StrategySetters(c: Cast, base: Duration, capacity: Duration, d: Duration)
    ensures Apply(c, WithLinearBackoffStrategy(d)) == Success(c.(stg := Some(Linear(d))))
    ensures Apply(c, WithConstantBackoffStrategy(d)) == Success(c.(stg := Some(Constant(d))))
    ensures Apply(c, WithExponentialBackoffStrategy(base, capacity))
      == Success(c.(stg := Some(Exponential(base, capacity))))
    ensures Apply(c, WithExponentialBackoffEqualJitterStrategy(base, capacity))
      == Success(c.(stg := Some(EqualJitter(base, capacity))))
    ensures Apply(c, WithExponentialBackoffFullJitterStrategy(base, capacity))
      == Success(c.(stg := Some(FullJitter(base, capacity))))
    ensures Apply(c, WithExponentialBackoffDecorrelatedJitterStrategy(base, capacity))
      == Success(c.(stg := Some(DecorrelatedJitter(base, capacity, base))))
  {
  }

  /** `WithRetry(k)` sets the budget to exactly `k` and changes nothing else. */
  lemma WithRetryExact(c: Cast, k: int)
    ensures Apply(c, WithRetry(k)) == Success(c.(retry := k))
  {
  }

  /** `WithHeader` installs the given header in place of the client's,
      and changes nothing else. */
  lemma WithHeaderReplaces(c: Cast, h: Header)
    ensures Apply(c, WithHeader(h)) == Success(c.(header := h))
  {
  }

  /** An odd-length header argument list fails before any header changes;
      an even one applies its pairs. */
  lemma HeaderSetters(c: Cast, vv: seq<string>)
    ensures |vv| % 2 != 0 ==> Apply(c, SetHeader(vv)) == Failure(OddHeaderArgs)
    ensures |vv| % 2 != 0 ==> Apply(c, AddHeader(vv)) == Failure(OddHeaderArgs)
    ensures |vv| % 2 == 0 ==> Apply(c, SetHeader(vv)) == Success(c.(header := ApplyPairs(c.header, vv, false)))
    ensures |vv| % 2 == 0 ==> Apply(c, AddHeader(vv)) == Success(c.(header := ApplyPairs(c.header, vv, true)))
  {
  }
}
