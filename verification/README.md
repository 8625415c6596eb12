# Resilient execution engine of the `cast` HTTP client, in Dafny

This project models the part of the `cast` Go HTTP client that turns a built
request into transport attempts:

- the backoff strategies: linear, constant, capped exponential, and
  exponential with equal, full or decorrelated jitter;
- the error classification `ShouldRetry` and the default retry hook;
- the setters that choose the retry budget, the strategy, the retry hooks
  and the client headers, and `New`, which applies them in order;
- the retry loop `genReply`, with circuit selection, retry-hook evaluation,
  the retry decision and the final result;
- the stage pipeline `Do`.

Durations are integer nanoseconds. The floating-point formulas of the
exponential strategies are computed exactly over `real`. Converting back to a
duration truncates toward zero, as Go's float-to-integer conversion does.
`rand.Float64()` becomes an explicit input `draw` with `0 <= draw < 1`. The
linear strategy's 64-bit product wraps around as in Go.

The loop runs over a scripted transport. Each loop iteration has one `Step`:

- the circuit breaker's verdict (`Admit`, or `Fallback(err)` when the
  breaker invoked its fallback);
- what the transport and the body read produced (`NoResponse(err)`, or
  `Received(raw, body, readErr)`, where `raw` carries the raw response's
  status, header and content length);
- the draw a jittered backoff would use after the attempt.

`GenReply` is the imperative loop. It is proved to produce the run that the
declarative `IsRun` describes, and `IsRun` allows only one run per script
(`RunDeterministic`). The laws of the loop are proved over `IsRun`: attempt
bounds, the record of `backoff` arguments, fallbacks, and the scenarios.

Modules: `Wrappers` (Option, Result), `Backoff` (backoff.go), `Errors`
(error.go), `Responses` (response.go), `RetryHooks` (retry_hook.go), `ClientState`
(the `Cast` struct fields the engine reads), `Options` (option.go), `Client`
(cast.go), and `RunProperties` (laws of the retry loop).

Behaviours of the code that the model keeps as written:

- The decorrelated-jitter `backoff` has a value receiver. It computes a new
  sleep into a local variable and never stores it, so `sleep` stays at the
  `base` the setter put there. Every call draws from `[base, 3·base)` and
  ignores the retry number (`DecorrelatedIgnoresRetry`).
- A failed body read ends the loop with `(nil, err)` at once. The retry hooks
  are not consulted, so a truncated body is never retried.
- Every circuit-breaker fallback ends the loop, whatever its cause. The
  breaker library decides when to call the fallback, so the script gives that
  decision as the step's gate.
- Retry hooks always get a non-nil response. When the transport returned no
  response, that response has status 0, an empty body, an empty header and
  size 0. Otherwise a hook can read the raw response's status, header and
  content length and the body that was read (`HookSeesResponse`).
- `retry_hook.go` calls `shouldRetry`, but `error.go` defines `ShouldRetry`.
  The model uses `ShouldRetry`.
- `*url.Error` implements `net.Error` in Go's standard library, and its
  `Temporary()` and `Timeout()` ask the wrapped error. So a url error wrapping
  a temporary network error counts as a network error. The EOF test looks
  only one level deep, so a url error wrapping a url error wrapping EOF is
  not retried (`UrlWrapping`).

## Model

| member | source | states |
|---|---|---|
| Backoff.Trunc | backoff.go:45-47 | converting a float to a duration keeps the integer part: the result lies between zero and x and is within 1 of x |
| Backoff.Wrap64 | backoff.go:17-19 | the 64-bit product of the linear strategy wraps around: the result is a 64-bit value, congruent to the exact product modulo 2^64, and equal to it when it fits |
| Backoff.Uniform | backoff.go:74-77 | `uniform(min, max)` with min < max is in `[min, max)`; it equals min when min = max; it is in `(max, min]` when max < min |
| Backoff.Expo | backoff.go:34-39 | `expo(n)` never exceeds cap or base·2^n, and equals one of them |
| Backoff.Wait | backoff.go:13-86 | the `backoff` of each strategy: linear waits are always 64-bit values, constant waits are the interval, and exponential and decorrelated-jitter waits never exceed the cap |
| Backoff.ExpoExact | backoff.go:34-39 | for n >= 0, `expo(n)` is exactly the integer min(cap, base·2^n) |
| Backoff.ExpoMonotone | backoff.go:34-39 | with base >= 0, `expo(n)` does not decrease as n grows, for negative n too |
| Backoff.ExpoExamples | backoff_test.go:35-47 | base 1ns and cap 10ns give 2, 4, 8 for n = 1..3 |
| Backoff.LinearIsProduct | backoff.go:17-19 | linear backoff is retry·slope when the product fits in 64 bits, and always a 64-bit value |
| Backoff.LinearExamples | backoff_test.go:9-20 | slope 1s gives 1s, 2s, 3s for n = 1..3 |
| Backoff.ConstantIgnoresRetry | backoff.go:25-27 | constant backoff is the interval for every retry number and every draw |
| Backoff.ExponentialIsExpo | backoff.go:45-47 | exponential backoff is the truncated `expo(n)`, exactly min(cap, base·2^n) for n >= 0, never above cap |
| Backoff.ExponentialExamples | backoff_test.go:49-65 | base 1s and cap 10s give 2s, 4s, 8s, 10s, 10s for n = 1..5 |
| Backoff.EqualJitterBounds | backoff.go:53-57 | equal jitter is at least the truncated expo(n)/2, below expo(n) when expo(n) > 0, and 0 when expo(n) = 0 |
| Backoff.FullJitterBounds | backoff.go:63-67 | full jitter is never negative and is below expo(n) when expo(n) > 0 |
| Backoff.DecorrelatedJitterBounds | backoff.go:79-86 | decorrelated jitter never exceeds cap; it is at least base when base <= cap and base <= 3·sleep; it is below 3·sleep when 0 <= base < 3·sleep |
| Backoff.DecorrelatedIgnoresRetry | backoff.go:79-86 | the decorrelated wait does not depend on the retry number, so with `sleep` never updated every call draws from the same range |
| Backoff.WaitNonNegative | backoff.go:13-86 | with non-negative parameters, no strategy returns a negative wait for n >= 1 (for linear, when the product fits in 64 bits) |
| Errors.ShouldRetry | error.go:26-35 | an error is retryable exactly when it is a temporary or timed-out network error, or a url error wrapping exactly EOF; nil is never retryable |
| Errors.ShouldRetryCases | error.go:16-35 | case by case: net errors follow their Temporary/Timeout flags; a url error wrapping EOF retries; other url errors follow the wrapped error's flags; nil, bare EOF, the package's own errors and other errors do not retry |
| Errors.UrlWrapping | error.go:21-24 | wrapping a retryable network error or the bare EOF in a url error makes it retryable, but EOF wrapped twice is not retried |
| Errors.TextRoundTrip | error.go:12-14 | `Error(s).Error()` returns s, and distinct strings give distinct errors |
| Errors.IsNetworkErr | error.go:16-19 | a net error is a network error exactly when it reports temporary or timeout; a url error exactly when its wrapped error does; no other kind is |
| Errors.IsEOF | error.go:21-24 | the EOF test holds exactly for a url error wrapping EOF, and not for a bare EOF |
| Client.HookSeesResponse | cast.go:189-202 | the response handed to the hooks is never nil; without a raw response it has status 0, an empty body, an empty `Header()` and `Size()` 0; with one, the raw status, header and content length and the body read |
| RetryHooks.DefaultRetryHooks | retry_hook.go:6-8 | the default hook list holds exactly one hook, and that hook's vote is the error classification |
| RetryHooks.DefaultRetry | retry_hook.go:10-12 | the default hook votes exactly on a retryable network error or a url-wrapped EOF, whatever the response, and never on nil |
| RetryHooks.DefaultHooksVote | retry_hook.go:10-12 | with only the default hook the vote ignores the response and equals `ShouldRetry(err)`; a nil error is never retried, whatever the status |
| RetryHooks.EvalHooks | cast.go:204-210 | hooks run in list order and stop at the first vote to retry; the result is true exactly when some hook votes, and when none votes every hook has run |
| RetryHooks.VotesAppend | cast.go:204-210 | a joined hook list votes exactly when one of its two parts votes |
| RetryHooks.ExampleHookVotes | example/main.go:10-18 | the default hook followed by the example hook votes exactly on a non-nil error or a status other than 200 |
| ClientState.Defaults | cast.go:42-48 | a new client starts with budget 0, no strategy, no circuits, an empty header, and the default retry hooks |
| Options.HeaderSet | option.go:38-40 | `Header.Set` leaves the key holding exactly the new value and leaves the other keys unchanged |
| Options.HeaderAdd | option.go:51-53 | `Header.Add` appends the value to the key's list and leaves the other keys unchanged |
| Options.SetPairsLastWins | option.go:33-43 | after `SetHeader`'s pairs run left to right, each key holds the last value given for it, and keys not mentioned keep their values |
| Options.AddPairsAppend | option.go:46-56 | after `AddHeader`'s pairs run, each key holds its old values followed by every value given for it, in argument order |
| Options.Apply | option.go:25-171 | a setter fails exactly when it is `SetHeader` or `AddHeader` given an odd number of arguments; it changes the budget only for `WithRetry`, the strategy only for a backoff setter, the hooks only by appending, and the header only for the header setters, `WithHeader` installing its argument as the whole header |
| Options.WithHeaderReplaces | option.go:25-29 | `WithHeader(h)` makes h the client's header and leaves every other field unchanged |
| Options.StrategySetters | option.go:92-163 | each backoff setter replaces the installed strategy with its own variant and parameters; the decorrelated setter seeds `sleep` with `base` |
| Options.WithRetryExact | option.go:84-90 | `WithRetry(k)` sets the budget to exactly k and changes nothing else |
| Options.HeaderSetters | option.go:33-56 | an odd-length list fails before any header changes; an even-length list applies its pairs with `Set` or `Add` |
| Client.ApplyAll | cast.go:78-82 | over the modelled setters, applying setters in order fails only with the odd-arguments error; on success the circuits are kept and the existing hooks stay first |
| Client.New | cast.go:42-82 | over the modelled setters, `New` fails only with the odd-arguments error; on success there are no circuits and the default hook stays first |
| Client.ApplyAllFails | cast.go:78-82 | applying setters in order fails exactly when some setter rejects its arguments, and then with that setter's error |
| Client.ApplyAllEffect | cast.go:78-82 | after successful setters, the last `WithRetry` and the last backoff setter win, added hooks follow the existing ones in order, and the modelled setters leave the circuits untouched |
| Client.NewEffect | cast.go:42-82 | `New` fails exactly when a setter rejects; otherwise the budget is the last `WithRetry` (default 0), the strategy is the last backoff setter's (default none), and the default hook stays first |
| Client.ExampleClient | example/main.go:22-29 | the example's retry settings give budget 3, the default hook then the example hook, and decorrelated jitter seeded at 200ms with cap 450ms |
| Client.SelectCircuit | cast.go:157-164 | one registered circuit is used whatever the request names; otherwise the request's name is looked up; if the lookup fails, no circuit is used |
| Client.GenReply | cast.go:144-226 | the loop's result, attempt count, `backoff` arguments and waits are exactly the run `IsRun` describes for the script |
| Client.RunHooks | cast.go:111-115 | a stage's hooks run in order and the first error stops them; none fails exactly when all errors are nil |
| Client.Do | cast.go:104-142 | stages run in order: body, before hooks, build, request hooks, retry loop, response hooks; the first failure returns `(nil, err)` and later stages, the retry loop included, do not run |
| RunProperties.RunDeterministic | cast.go:144-226 | a script allows exactly one run |
| RunProperties.RunBounds | cast.go:150-217 | at most retry + 1 attempts; `backoff` is called with 1, 2, ... in order, each argument at most retry and at most the attempts made; a negative budget gives no attempt and `(nil, nil)`; an error result has no response |
| RunProperties.RetryNeedsAll | cast.go:212-217 | a second iteration happens exactly when the first attempt went through, some hook voted, budget remains and a strategy is configured |
| RunProperties.NoStrategyOneIteration | cast.go:212-217 | without a strategy exactly one iteration runs and no backoff is taken |
| RunProperties.NoVoteOneAttempt | cast.go:204-217 | if no hook votes on the first attempt, it is the only attempt and its outcome is the result |
| RunProperties.FallbackEndsRun | cast.go:165-183 | a fallback is the last iteration; it is not counted as an attempt; no hook or backoff follows it; its error is the result |
| RunProperties.RejectedAtOnce | cast.go:165-182 | a breaker rejecting the first attempt gives zero attempts, no hook round, no backoff, and the rejection as the result |
| RunProperties.ExhaustsBudget | cast.go:212-225 | when every attempt goes through and gets a vote, exactly retry + 1 attempts are made, backoff args are 1..retry, and the last attempt's outcome is returned |
| RunProperties.DefaultHookSettlesOnNil | retry_hook.go:10-12 | with only the default hook, a first attempt with a nil error ends the run with its response, whatever its status |
| RunProperties.NoCircuitIgnoresGates | cast.go:177-179 | when no circuit is selected the transport is called directly, so the breaker's verdicts do not change the run |
| RunProperties.FourAttemptsScenario | cast.go:204-217 | budget 3, constant 10ms, and a hook voting on every 500 reply give 4 attempts, backoff args 1, 2, 3 with 10ms waits, and the 4th reply as the result |

## Left out

- The circuit breaker library (cep21/circuit) and its hystrix configuration (cast.go:59-76): its state machine, rolling counters and concurrency are external code. Each attempt records only the breaker's verdict, as a scripted gate.
- `AddCircuitConfig` and `WithDefaultCircuit` (option.go:214-239): they register circuits in the external manager, and `WithDefaultCircuit` writes a field the `Cast` struct does not declare. The registered circuit names are a field of the client state. `AddCircuitConfig` returns the manager's `CreateCircuit` error (option.go:228-229), so in the source `New` can also fail there.
- Client.ApplyAllFails: "fails exactly when some setter rejects" holds over the modelled setters only; the failure of `AddCircuitConfig` is not modelled because it is decided by the external circuit manager.
- Client.NewEffect: the same limit as `ApplyAllFails`; `New` can also fail on an `AddCircuitConfig` setter, which is not modelled.
- Client.ApplyAll: its failure clause ("only the odd-arguments error") and its circuit clause ("circuits are kept") hold over the modelled setters only. The left-out `AddCircuitConfig` registers a circuit and can fail with `CreateCircuit`'s error (option.go:228-229).
- Client.New: its failure clause and its "no circuits on success" clause hold over the modelled setters only. A `New` given `AddCircuitConfig` setters, as the example program's is, registers those circuits and can fail with `CreateCircuit`'s error. The model's setters never change the circuits.
- Client.ApplyAllEffect: "circuits are untouched" holds over the modelled setters only. The left-out `AddCircuitConfig` adds a circuit to the manager.
- The HTTP client, `ioutil.ReadAll`, `Body.Close` and transport tuning (cast.go:84-93): these are I/O. Their results come from the script.
- Sleeping with `time.After`: the loop records each wait instead of blocking.
- Context timeouts and cancellation: these are timing behaviour outside this code.
- Request timing fields (cast.go:184-187) and logging: observability only.
- Floating-point rounding in `expo` and `uniform`, and float-to-`Duration` conversion outside the 64-bit range: the real-number results are exact, up to the truncation `Trunc` models.
- Backoff.EqualJitterBounds: the lower bound is the truncated expo(n)/2, not expo(n)/2, because the result is truncated to whole nanoseconds.
- Integer overflow of `retry + 1` when the budget is the largest 64-bit integer: the model's budget is unbounded.
- Canonicalisation of header keys by `Header.Set` and `Header.Add`: the model uses keys as given.
- Sharing of the header map: `WithHeader` (option.go:25-29) stores the caller's map itself, so a later `SetHeader` or `AddHeader` also changes the caller's map. The model's header is a value, and this aliasing is not modelled.
- `WithHeader(nil)` followed by `SetHeader` or `AddHeader` writes to a nil map, which panics in Go. The model has no nil header; an absent header is the empty map.
- `Response.Cookies()` (response.go:27-32) parses the raw response's `Set-Cookie` header, and that parsing is not modelled. A hook can still read the header itself through `ResponseHeader`.
- The response's request, timing and retry-count fields, and its JSON and XML decoders: they are not used by the retry loop.
- Error texts of error kinds other than the package's own `Error`: the classification does not read them.
- Stateful retry hooks: a Go hook is a `func(*Response, error) bool` value and may be a closure with state, such as an attempt counter or a clock, which can vote differently on equal inputs. The model's hooks are stateless functions of the response and error, and the laws of the retry loop (`RunDeterministic`, `ExhaustsBudget`, `NoVoteOneAttempt` and the scenarios) hold only for such hooks.
- The effects of before-request, request and response hooks on the request and response: `Do` gets only each hook's returned error. The request body is likewise reduced to its encoding error.
- The remaining setters (`WithBaseURL`, `WithBasicAuth`, `WithCookies`, `WithBearerToken`, `AddResponseHooks`, `WithHTTPClientTimeout`, `AddBeforeRequestHook`, `WithLogHook`, `WithLogLevel`, `AddRequestHook`): they configure stages whose effects are outside the model.
- errors.go: a second `Error` type with `String()` and two status-error constants, from another revision of the package. The current loop does not use them.
