/** The execution engine of a `Cast` client: building a client from setters,
    the retry loop `genReply`, and the stage pipeline `Do`.

    The transport, the circuit breaker and the clock are outside the model.
    The retry loop runs over a script of steps, one per loop iteration:
    whether the circuit breaker let the attempt through or invoked its
    fallback, what the transport and the body read produced, and the
    `rand.Float64()` draw a jittered backoff would consume after it. */
module Client {
  import opened Wrappers
  import opened Backoff
  import opened Errors
  import opened Responses
  import opened RetryHooks
  import opened ClientState
  import opened Options

  // ---------------------------------------------------------------------
  // New

  /** Setters applied left to right; the first error is returned. */
  function ApplyAll(c: Cast, sl: seq<Setter>): (r: Result<Cast, Error>)
    ensures r.Failure? ==> r.error == OddHeaderArgs
    ensures r.Success? ==> r.value.circuits == c.circuits
    ensures r.Success? ==> c.retryHooks <= r.value.retryHooks
    decreases |sl|
  {
    if |sl| == 0 then Success(c)
    else
      match Apply(c, sl[0])
      case Failure(e) => Failure(e)
      case Success(c') => ApplyAll(c', sl[1..])
  }

  /** `New`: the defaults, then every setter in order. */
  function New(sl: seq<Setter>): (r: Result<Cast, Error>)
    ensures r.Failure? ==> r.error == OddHeaderArgs
    ensures r.Success? ==> r.value.circuits == [] && DefaultRetryHooks() <= r.value.retryHooks
  {
    ApplyAll(Defaults(), sl)
  }

  /** The retry hooks the setters add, in order. */
  function AddedHooks(sl: seq<Setter>): (hooks: seq<RetryHook>)
    decreases |sl|
  {
    if |sl| == 0 then []
    else (if sl[0].AddRetryHooks? then sl[0].hooks else []) + AddedHooks(sl[1..])
  }

  /** The strategy of the last backoff setter in the list, or `dflt`. */
  function LastStrategy(sl: seq<Setter>, dflt: Option<Strategy>): (stg: Option<Strategy>)
    decreases |sl|
  {
    if |sl| == 0 then dflt
    else if StrategyOf(sl[|sl| - 1]).Some? then StrategyOf(sl[|sl| - 1])
    else LastStrategy(sl[..|sl| - 1], dflt)
  }

  /** The argument of the last `WithRetry` in the list, or `dflt`. */
  function LastRetry(sl: seq<Setter>, dflt: int): (retry: int)
    decreases |sl|
  {
    if |sl| == 0 then dflt
    else if sl[|sl| - 1].WithRetry? then sl[|sl| - 1].retry
    else LastRetry(sl[..|sl| - 1], dflt)
  }

  /** Peeling the first setter off a list moves its effect into the
      defaults the rest of the list is measured against. */
  lemma {:induction false} LastSplit(sl: seq<Setter>, s: Setter, rest: seq<Setter>, c: Cast, c': Cast)
    requires sl == [s] + rest
    requires Apply(c, s) == Success(c')
    ensures LastStrategy(sl, c.stg) == LastStrategy(rest, c'.stg)
    ensures LastRetry(sl, c.retry) == LastRetry(rest, c'.retry)
    decreases |rest|
  {
    if |rest| == 0 {
      assert sl[..|sl| - 1] == [];
    } else {
      var init := [s] + rest[..|rest| - 1];
      assert sl[..|sl| - 1] == init;
      assert sl[|sl| - 1] == rest[|rest| - 1];
      LastSplit(init, s, rest[..|rest| - 1], c, c');
    }
  }

  /** Applying a setter list fails exactly when one of its setters rejects
      its arguments, and then with the header setters' error. */
  lemma {:induction false} ApplyAllFails(c: Cast, sl: seq<Setter>)
    ensures ApplyAll(c, sl).Failure? <==> exists i :: 0 <= i < |sl| && Rejects(sl[i])
    ensures ApplyAll(c, sl).Failure? ==> ApplyAll(c, sl).error == OddHeaderArgs
    decreases |sl|
  {
    if |sl| != 0 {
      match Apply(c, sl[0])
      case Failure(e) =>
      case Success(c1) =>
        ApplyAllFails(c1, sl[1..]);
        if exists i :: 0 <= i < |sl[1..]| && Rejects(sl[1..][i]) {
          var i :| 0 <= i < |sl[1..]| && Rejects(sl[1..][i]);
          assert Rejects(sl[i + 1]);
        }
        if exists i :: 0 <= i < |sl| && Rejects(sl[i]) {
          var i :| 0 <= i < |sl| && Rejects(sl[i]);
          assert i != 0;
          assert Rejects(sl[1..][i - 1]);
        }
    }
  }

  /** When a setter list applies, the last `WithRetry` and the last backoff
      setter win, the added hooks follow the existing ones in order, and
      the registered circuits are untouched. */
  lemma {:induction false} ApplyAllEffect(c: Cast, sl: seq<Setter>)
    requires ApplyAll(c, sl).Success?
    ensures var c' := ApplyAll(c, sl).value;
      && c'.retry == LastRetry(sl, c.retry)
      && c'.stg == LastStrategy(sl, c.stg)
      && c'.retryHooks == c.retryHooks + AddedHooks(sl)
      && c'.circuits == c.circuits
    decreases |sl|
  {
    if |sl| == 0 {
      assert c.retryHooks + [] == c.retryHooks;
    } else {
      var c1 := Apply(c, sl[0]).value;
      ApplyAllEffect(c1, sl[1..]);
      assert sl == [sl[0]] + sl[1..];
      LastSplit(sl, sl[0], sl[1..], c, c1);
      var added := if sl[0].AddRetryHooks? then sl[0].hooks else [];
      assert c1.retryHooks == c.retryHooks + added;
      assert AddedHooks(sl) == added + AddedHooks(sl[1..]);
    }
  }

  /** `New` returns an error exactly when some setter rejects its
      arguments. On success the retry budget is the last `WithRetry` (0
      without one), the strategy is the last backoff setter's (none without
      one), and the default hook stays first with the added hooks after it
      in order. */
  lemma NewEffect(sl: seq<Setter>)
    ensures New(sl).Failure? <==> exists i :: 0 <= i < |sl| && Rejects(sl[i])
    ensures New(sl).Failure? ==> New(sl).error == OddHeaderArgs
    ensures New(sl).Success? ==>
      && New(sl).value.retry == LastRetry(sl, 0)
      && New(sl).value.stg == LastStrategy(sl, None)
      && New(sl).value.retryHooks == DefaultRetryHooks() + AddedHooks(sl)
  {
    ApplyAllFails(Defaults(), sl);
    if New(sl).Success? {
      ApplyAllEffect(Defaults(), sl);
    }
  }

  /** Setting up the example program's client: budget 3, the example hook
      after the default one, decorrelated jitter seeded at its base. */
  lemma ExampleClient()
    ensures var sl := [WithRetry(3), AddRetryHooks([RetryUnlessOk]),
                       WithExponentialBackoffDecorrelatedJitterStrategy(200 * Millisecond, 450 * Millisecond)];
      New(sl).Success?
      && New(sl).value.retry == 3
      && New(sl).value.retryHooks == DefaultRetryHooks() + [RetryUnlessOk]
      && New(sl).value.stg == Some(DecorrelatedJitter(200 * Millisecond, 450 * Millisecond, 200 * Millisecond))
  {
    var sl := [WithRetry(3), AddRetryHooks([RetryUnlessOk]),
               WithExponentialBackoffDecorrelatedJitterStrategy(200 * Millisecond, 450 * Millisecond)];
    NewEffect(sl);
    var s2 := [WithRetry(3), AddRetryHooks([RetryUnlessOk])];
    var s1 := [WithRetry(3)];
    assert sl[..2] == s2;
    assert s2[..1] == s1;
    assert s1[..0] == [];
    assert AddedHooks(sl[1..][1..]) == [];
    assert AddedHooks(sl[1..]) == [RetryUnlessOk];
    assert AddedHooks(sl) == [RetryUnlessOk];
    assert LastRetry(s2, 0) == 3;
    assert LastRetry(sl, 0) == 3;
  }

  // ---------------------------------------------------------------------
  // Circuit selection

  /** The circuit an attempt runs through: the only registered one whatever
      the request names, otherwise the one registered under the request's
      name, otherwise none (the transport is called directly). */
  function SelectCircuit(circuits: seq<string>, name: string): (cb: Option<string>)
    ensures |circuits| == 1 ==> cb == Some(circuits[0])
    ensures |circuits| != 1 ==> (cb.Some? <==> name in circuits)
    ensures |circuits| != 1 && cb.Some? ==> cb.value == name
  {
    if |circuits| == 1 then Some(circuits[0])
    else if name in circuits then Some(name)
    else None
  }

  // ---------------------------------------------------------------------
  // The scripted transport

  /** The circuit breaker's verdict on an attempt: run it, or invoke the
      fallback, which returns the given error. */
  datatype Gate = Admit | Fallback(err: Error)

  /** What the transport call and the body read produced: no response and
      an error, or a raw response whose body read gave `body` and ended with
      `readErr`. The transport's own error next to a response is overwritten
      by the body read's, so it is not recorded. */
  datatype Outcome =
    | NoResponse(err: Error)
    | Received(raw: RawResponse, body: seq<bv8>, readErr: Error)

  /** One iteration of the retry loop. */
  datatype Step = Step(gate: Gate, outcome: Outcome, draw: real)

  /** Every draw is a value of `rand.Float64()`. */
  predicate ValidDraws(script: seq<Step>) {
    forall i :: 0 <= i < |script| ==> 0.0 <= script[i].draw < 1.0
  }

  /** The response and error the retry hooks see after an attempt. */
  function Observed(o: Outcome): (seen: (Reply, Error)) {
    match o
    case NoResponse(e) => (Reply(None, 0, []), e)
    case Received(raw, body, readErr) => (Reply(Some(raw), raw.statusCode, body), readErr)
  }

  /** The response a hook sees is never nil. Without a raw response it
      reads status 0, an empty body, an empty header and size 0; with one,
      the raw response's status, header and content length, and the body
      that was read. */
  lemma HookSeesResponse(o: Outcome)
    ensures var (resp, e) := Observed(o);
      && (o.NoResponse? ==>
            && resp.raw == None && resp.statusCode == 0 && resp.body == []
            && ResponseHeader(resp) == map[] && Size(resp) == 0
            && e == o.err)
      && (o.Received? ==>
            && resp.raw == Some(o.raw) && resp.statusCode == o.raw.statusCode && resp.body == o.body
            && ResponseHeader(resp) == o.raw.header && Size(resp) == o.raw.contentLength
            && e == o.readErr)
  {
  }

  /** The attempt went to a circuit, and the circuit invoked its fallback. */
  predicate FallsBack(c: Cast, name: string, s: Step) {
    SelectCircuit(c.circuits, name).Some? && s.gate.Fallback?
  }

  /** The response came back but its body could not be read. */
  predicate ReadFails(s: Step) {
    s.outcome.Received? && s.outcome.readErr != Nil
  }

  /** The loop goes round again after step `s`, which was attempt number
      `count`: the attempt went through and its body was read, some hook
      voted to retry, budget remains, and a strategy is configured. */
  predicate Retries(c: Cast, name: string, s: Step, count: int) {
    && !FallsBack(c, name, s)
    && !ReadFails(s)
    && Votes(c.retryHooks, Observed(s.outcome).0, Observed(s.outcome).1)
    && count < c.retry + 1
    && c.stg.Some?
  }

  /** The record of one `genReply` call: its result, the attempts counted,
      the loop iterations (attempts plus a final fallback, if any), the
      arguments passed to `backoff` and the waits it returned, and how
      many times the retry hooks were evaluated. */
  datatype Run = Run(
    reply: Option<Reply>,
    err: Error,
    attempts: nat,
    steps: nat,
    backoffArgs: seq<int>,
    waits: seq<Duration>,
    rounds: nat)

  /** How the final iteration ends the run. */
  ghost predicate Ends(c: Cast, name: string, script: seq<Step>, r: Run)
    requires 1 <= r.steps <= |script|
  {
    var last := script[r.steps - 1];
    if FallsBack(c, name, last) then
      && r.attempts == r.steps - 1
      && r.rounds == r.steps - 1
      && r.err == last.gate.err
      && r.reply == (if r.err != Nil || r.steps == 1 then None
                     else Some(Observed(script[r.steps - 2].outcome).0))
    else if ReadFails(last) then
      && r.attempts == r.steps
      && r.rounds == r.steps - 1
      && r.err == last.outcome.readErr
      && r.reply == None
    else
      && r.attempts == r.steps
      && r.rounds == r.steps
      && r.err == Observed(last.outcome).1
      && r.reply == (if r.err != Nil then None else Some(Observed(last.outcome).0))
  }

  /** The run `genReply` makes over a script: with a negative budget no
      iteration and `(nil, nil)`; otherwise every iteration but the last
      retries, the last does not, `backoff` is called with 1, 2, ... after
      each retried attempt, and the last iteration decides the result. */
  ghost predicate IsRun(c: Cast, name: string, script: seq<Step>, r: Run) {
    if c.retry < 0 then r == Run(None, Nil, 0, 0, [], [], 0)
    else
      && 1 <= r.steps <= c.retry + 1
      && r.steps <= |script|
      && Retried(c, name, script, r.steps - 1, r.backoffArgs, r.waits)
      && !Retries(c, name, script[r.steps - 1], r.steps)
      && Ends(c, name, script, r)
  }

  /** The first `count` iterations all retried, and their `backoff`
      calls are recorded in `args` and `waits`. */
  ghost predicate Retried(c: Cast, name: string, script: seq<Step>, count: nat, args: seq<int>, waits: seq<Duration>) {
    && count <= |script|
    && (forall i :: 0 <= i < count ==> Retries(c, name, script[i], i + 1))
    && args == seq(count, i => i + 1)
    && |waits| == count
    && (forall i :: 0 <= i < count ==>
          && c.stg.Some? && 0.0 <= script[i].draw < 1.0
          && waits[i] == Wait(c.stg.value, i + 1, script[i].draw))
  }

  /** A fallback at iteration `count + 1` ends the run: no attempt is
      counted for it and the fallback's error is the result. */
  lemma FallbackStop(c: Cast, name: string, script: seq<Step>, count: nat, args: seq<int>,
                     waits: seq<Duration>, resp: Option<Reply>)
    requires 0 <= c.retry && count <= c.retry && count < |script|
    requires Retried(c, name, script, count, args, waits)
    requires count == 0 ==> resp == None
    requires 0 < count ==> resp == Some(Observed(script[count - 1].outcome).0)
    requires FallsBack(c, name, script[count])
    ensures var e := script[count].gate.err;
      IsRun(c, name, script, Run(if e != Nil then None else resp, e, count, count + 1, args, waits, count))
  {
  }

  /** A failed body read at attempt `count` ends the run with that error. */
  lemma ReadFailStop(c: Cast, name: string, script: seq<Step>, count: nat, args: seq<int>, waits: seq<Duration>)
    requires 0 <= c.retry && 1 <= count <= c.retry + 1 && count <= |script|
    requires Retried(c, name, script, count - 1, args, waits)
    requires !FallsBack(c, name, script[count - 1])
    requires ReadFails(script[count - 1])
    ensures IsRun(c, name, script,
                  Run(None, script[count - 1].outcome.readErr, count, count, args, waits, count - 1))
  {
    var r := Run(None, script[count - 1].outcome.readErr, count, count, args, waits, count - 1);
    assert Ends(c, name, script, r);
    assert !Retries(c, name, script[r.steps - 1], r.steps);
    assert r.backoffArgs == seq(r.steps - 1, i => i + 1);
    assert forall i :: 0 <= i < r.steps - 1 ==> Retries(c, name, script[i], i + 1);
  }

  /** An attempt that is not retried ends the run with its own outcome. */
  lemma SettleStop(c: Cast, name: string, script: seq<Step>, count: nat, args: seq<int>,
                   waits: seq<Duration>, rep: Reply, err: Error)
    requires 0 <= c.retry && 1 <= count <= c.retry + 1 && count <= |script|
    requires Retried(c, name, script, count - 1, args, waits)
    requires !FallsBack(c, name, script[count - 1]) && !ReadFails(script[count - 1])
    requires (rep, err) == Observed(script[count - 1].outcome)
    requires !Retries(c, name, script[count - 1], count)
    ensures IsRun(c, name, script,
                  Run(if err != Nil then None else Some(rep), err, count, count, args, waits, count))
  {
    var r := Run(if err != Nil then None else Some(rep), err, count, count, args, waits, count);
    assert Ends(c, name, script, r);
    assert r.backoffArgs == seq(r.steps - 1, i => i + 1);
    assert forall i :: 0 <= i < r.steps - 1 ==> Retries(c, name, script[i], i + 1);
  }

  /** One more retried iteration extends the record. */
  lemma RetriedStep(c: Cast, name: string, script: seq<Step>, count: nat, args: seq<int>, waits: seq<Duration>)
    requires Retried(c, name, script, count, args, waits)
    requires count < |script|
    requires Retries(c, name, script[count], count + 1)
    requires 0.0 <= script[count].draw < 1.0
    ensures Retried(c, name, script, count + 1, args + [count + 1],
                    waits + [Wait(c.stg.value, count + 1, script[count].draw)])
  {
    var args' := args + [count + 1];
    assert args' == seq(count + 1, i => i + 1);
  }

  // ---------------------------------------------------------------------
  // genReply

  /** The retry loop. The script holds one step for each iteration the
      budget allows. */
  method GenReply(c: Cast, name: string, script: seq<Step>) returns (r: Run)
    requires ValidDraws(script)
    requires c.retry < |script|
    ensures IsRun(c, name, script, r)
  {
    var count: nat := 0;
    var err := Nil;
    var resp: Option<Reply> := None;
    var args: seq<int> := [];
    var waits: seq<Duration> := [];
    var rounds: nat := 0;
    while true
      invariant 0 <= c.retry ==> count <= c.retry
      invariant c.retry < 0 ==> count == 0
      invariant Retried(c, name, script, count, args, waits)
      invariant rounds == count
      invariant count == 0 ==> resp == None
      invariant 0 < count ==> resp == Some(Observed(script[count - 1].outcome).0)
      decreases c.retry + 1 - count
    {
      if count > c.retry {
        r := Run(None, Nil, 0, 0, [], [], 0);
        return;
      }
      var step := script[count];
      var cb := SelectCircuit(c.circuits, name);
      if cb.Some? && step.gate.Fallback? {
        err := step.gate.err;
        r := Run(if err != Nil then None else resp, err, count, count + 1, args, waits, rounds);
        FallbackStop(c, name, script, count, args, waits, resp);
        return;
      }
      count := count + 1;
      match step.outcome {
        case NoResponse(e) =>
          resp := Some(Reply(None, 0, []));
          err := e;
        case Received(raw, body, readErr) =>
          if readErr != Nil {
            r := Run(None, readErr, count, count, args, waits, rounds);
            ReadFailStop(c, name, script, count, args, waits);
            return;
          }
          resp := Some(Reply(Some(raw), raw.statusCode, body));
          err := Nil;
      }
      var isRetry, _ := EvalHooks(c.retryHooks, resp.value, err);
      rounds := rounds + 1;
      if isRetry && count < c.retry + 1 && c.stg.Some? {
        var w := Wait(c.stg.value, count, step.draw);
        RetriedStep(c, name, script, count - 1, args, waits);
        args := args + [count];
        waits := waits + [w];
        continue;
      }
      r := Run(if err != Nil then None else resp, err, count, count, args, waits, rounds);
      SettleStop(c, name, script, count, args, waits, resp.value, err);
      return;
    }
  }

  // ---------------------------------------------------------------------
  // Do

  /** What each stage of `Do` other than the retry loop returns for one
      request: the body encoding's error, each before-request hook's, the
      request construction's, each request hook's and each response
      hook's, in hook order. */
  datatype Stages = Stages(
    bodyErr: Error,
    beforeErrs: seq<Error>,
    buildErr: Error,
    requestErrs: seq<Error>,
    responseErrs: seq<Error>)

  /** Where `Do` stopped: at a failing stage, or after all of them. */
  datatype Stop =
    | AtBody
    | AtBeforeHook(index: nat)
    | AtBuild
    | AtRequestHook(index: nat)
    | AtReply
    | AtResponseHook(index: nat)
    | Completed

  predicate AllNil(errs: seq<Error>) {
    forall j :: 0 <= j < |errs| ==> errs[j] == Nil
  }

  /** Hook `i` is the first whose error is not nil. */
  predicate FirstFailure(errs: seq<Error>, i: nat) {
    i < |errs| && errs[i] != Nil && AllNil(errs[..i])
  }

  /** Everything before the retry loop succeeded. */
  predicate Prepared(st: Stages) {
    st.bodyErr == Nil && AllNil(st.beforeErrs) && st.buildErr == Nil && AllNil(st.requestErrs)
  }

  /** A hook list run in order, stopping at the first error. */
  method RunHooks(errs: seq<Error>) returns (failed: Option<nat>)
    ensures failed.None? <==> AllNil(errs)
    ensures failed.Some? ==> FirstFailure(errs, failed.value)
  {
    var i := 0;
    while i < |errs|
      invariant i <= |errs|
      invariant AllNil(errs[..i])
    {
      if errs[i] != Nil {
        return Some(i);
      }
      assert errs[..i + 1] == errs[..i] + [errs[i]];
      i := i + 1;
    }
    assert errs[..i] == errs;
    return None;
  }

  /** `Do`: body, before-request hooks, request construction, request
      hooks, the retry loop, response hooks. The first stage to fail
      returns `(nil, err)` and no later stage runs; `run` is the retry
      loop's record when it ran. */
  method Do(c: Cast, name: string, st: Stages, script: seq<Step>)
    returns (reply: Option<Reply>, err: Error, stop: Stop, run: Option<Run>)
    requires ValidDraws(script)
    requires c.retry < |script|
    ensures stop == AtBody <==> st.bodyErr != Nil
    ensures stop.AtBeforeHook? <==> st.bodyErr == Nil && !AllNil(st.beforeErrs)
    ensures stop.AtBeforeHook? ==> FirstFailure(st.beforeErrs, stop.index) && err == st.beforeErrs[stop.index]
    ensures stop == AtBuild <==> st.bodyErr == Nil && AllNil(st.beforeErrs) && st.buildErr != Nil
    ensures stop.AtRequestHook? <==>
      st.bodyErr == Nil && AllNil(st.beforeErrs) && st.buildErr == Nil && !AllNil(st.requestErrs)
    ensures stop.AtRequestHook? ==> FirstFailure(st.requestErrs, stop.index) && err == st.requestErrs[stop.index]
    ensures run.Some? <==> Prepared(st)
    ensures run.Some? ==> IsRun(c, name, script, run.value)
    ensures stop == AtReply <==> run.Some? && run.value.err != Nil
    ensures stop.AtResponseHook? <==> run.Some? && run.value.err == Nil && !AllNil(st.responseErrs)
    ensures stop.AtResponseHook? ==> FirstFailure(st.responseErrs, stop.index) && err == st.responseErrs[stop.index]
    ensures stop == AtBody ==> err == st.bodyErr
    ensures stop == AtBuild ==> err == st.buildErr
    ensures stop == AtReply ==> err == run.value.err
    ensures stop != Completed ==> reply == None && err != Nil
    ensures stop == Completed ==> err == Nil && reply == run.value.reply
  {
    run := None;
    reply := None;
    if st.bodyErr != Nil {
      return None, st.bodyErr, AtBody, None;
    }
    var failed := RunHooks(st.beforeErrs);
    if failed.Some? {
      return None, st.beforeErrs[failed.value], AtBeforeHook(failed.value), None;
    }
    if st.buildErr != Nil {
      return None, st.buildErr, AtBuild, None;
    }
    failed := RunHooks(st.requestErrs);
    if failed.Some? {
      return None, st.requestErrs[failed.value], AtRequestHook(failed.value), None;
    }
    var r := GenReply(c, name, script);
    run := Some(r);
    if r.err != Nil {
      return None, r.err, AtReply, run;
    }
    failed := RunHooks(st.responseErrs);
    if failed.Some? {
      return None, st.responseErrs[failed.value], AtResponseHook(failed.value), run;
    }
    return r.reply, Nil, Completed, run;
  }
}
