/** Properties of the retry loop, stated over the run characterisation
    that `GenReply` is proved to produce. */
module RunProperties {
  import opened Wrappers
  import opened Backoff
  import opened Errors
  import opened Responses
  import opened RetryHooks
  import opened ClientState
  import opened Client

  /** A script determines its run: the characterisation leaves no choice. */
  lemma {:induction false} RunDeterministic(c: Cast, name: string, script: seq<Step>, r1: Run, r2: Run)
    requires IsRun(c, name, script, r1)
    requires IsRun(c, name, script, r2)
    ensures r1 == r2
  {
    if 0 <= c.retry {
      var m := if r1.steps < r2.steps then r1.steps else r2.steps;
      var sm := script[m - 1];
      assert r1.steps < r2.steps ==> Retries(c, name, sm, m);
      assert r2.steps < r1.steps ==> Retries(c, name, sm, m);
      assert r1.steps == r2.steps;
      assert r1.backoffArgs == r2.backoffArgs;
      assert r1.waits == r2.waits by {
        forall i | 0 <= i < |r1.waits|
          ensures r1.waits[i] == r2.waits[i]
        {
        }
      }
      assert Ends(c, name, script, r1) && Ends(c, name, script, r2);
      var last := script[r1.steps - 1];
      if FallsBack(c, name, last) {
        assert r1.err == r2.err;
        assert r1.reply == r2.reply;
      } else if ReadFails(last) {
      } else {
      }
    }
  }

  /** Attempt and backoff bounds: at most `retry + 1` attempts; `backoff`
      is called with 1, 2, ... in order, each argument being the number of
      attempts completed so far, at most `retry`, so never after the last
      allowed attempt; an error result carries no response. */
  lemma RunBounds(c: Cast, name: string, script: seq<Step>, r: Run)
    requires IsRun(c, name, script, r)
    ensures r.attempts <= r.steps
    ensures 0 <= c.retry ==> r.attempts <= c.retry + 1
    ensures c.retry < 0 ==> r.attempts == 0 && r.reply == None && r.err == Nil
    ensures |r.backoffArgs| == |r.waits| <= r.attempts
    ensures forall j :: 0 <= j < |r.backoffArgs| ==>
      r.backoffArgs[j] == j + 1 && 1 <= r.backoffArgs[j] <= c.retry && r.backoffArgs[j] <= r.attempts
    ensures r.err != Nil ==> r.reply == None
  {
    if 0 <= c.retry {
      assert Ends(c, name, script, r);
      var last := script[r.steps - 1];
      if FallsBack(c, name, last) {
        assert r.attempts == r.steps - 1;
      } else if ReadFails(last) {
      } else {
      }
    }
  }

  /** The loop goes round again after the first attempt exactly when the
      attempt went through, some hook voted to retry, budget remains and a
      strategy is configured. */
  lemma RetryNeedsAll(c: Cast, name: string, script: seq<Step>, r: Run)
    requires IsRun(c, name, script, r)
    requires 0 <= c.retry
    ensures 1 < r.steps <==> Retries(c, name, script[0], 1)
    ensures 1 < r.steps ==>
      && Votes(c.retryHooks, Observed(script[0].outcome).0, Observed(script[0].outcome).1)
      && 1 < c.retry + 1
      && c.stg.Some?
  {
    var first := script[0];
    assert 1 < r.steps ==> Retries(c, name, first, 1);
  }

  /** Without a strategy exactly one iteration runs, whatever the hooks
      vote and whatever the budget. */
  lemma NoStrategyOneIteration(c: Cast, name: string, script: seq<Step>, r: Run)
    requires IsRun(c, name, script, r)
    requires 0 <= c.retry && c.stg.None?
    ensures r.steps == 1 && r.attempts <= 1 && r.backoffArgs == [] && r.waits == []
  {
    var first := script[0];
    assert 1 < r.steps ==> Retries(c, name, first, 1);
  }

  /** If no hook votes on the first attempt, it is the only one and its
      outcome is the result. */
  lemma NoVoteOneAttempt(c: Cast, name: string, script: seq<Step>, r: Run)
    requires IsRun(c, name, script, r)
    requires 0 <= c.retry
    requires !FallsBack(c, name, script[0]) && !ReadFails(script[0])
    requires !Votes(c.retryHooks, Observed(script[0].outcome).0, Observed(script[0].outcome).1)
    ensures r.steps == 1 && r.attempts == 1 && r.backoffArgs == []
    ensures r.err == Observed(script[0].outcome).1
    ensures r.reply == if r.err != Nil then None else Some(Observed(script[0].outcome).0)
  {
    var first := script[0];
    assert 1 < r.steps ==> Retries(c, name, first, 1);
  }

  /** A fallback ends the loop at once: it is the last iteration, it is
      not counted as an attempt, no hook runs for it, and its error is the
      result. */
  lemma FallbackEndsRun(c: Cast, name: string, script: seq<Step>, r: Run, i: nat)
    requires IsRun(c, name, script, r)
    requires i < r.steps
    requires FallsBack(c, name, script[i])
    ensures i == r.steps - 1
    ensures r.attempts == i && r.rounds == i && |r.backoffArgs| == i
    ensures r.err == script[i].gate.err
    ensures r.err != Nil ==> r.reply == None
  {
    assert i < r.steps - 1 ==> Retries(c, name, script[i], i + 1);
    assert i == r.steps - 1;
    assert Ends(c, name, script, r);
  }

  /** A breaker that rejects the very first attempt: no attempt is counted,
      no hook runs, no backoff is taken, and the rejection is the result. */
  lemma RejectedAtOnce(c: Cast, name: string, script: seq<Step>, r: Run)
    requires IsRun(c, name, script, r)
    requires 0 <= c.retry
    requires FallsBack(c, name, script[0]) && script[0].gate.err != Nil
    ensures r.attempts == 0 && r.rounds == 0 && r.backoffArgs == [] && r.waits == []
    ensures r.reply == None && r.err == script[0].gate.err
  {
    FallbackEndsRun(c, name, script, r, 0);
  }

  /** When every attempt the budget allows goes through and is voted for,
      and a strategy is configured, exactly `retry + 1` attempts are made,
      `backoff` is called with 1 .. retry, and the last attempt's outcome
      is returned: exhaustion ends the loop even though the hooks vote on. */
  lemma {:induction false} ExhaustsBudget(c: Cast, name: string, script: seq<Step>, r: Run)
    requires IsRun(c, name, script, r)
    requires 0 <= c.retry && c.stg.Some?
    requires forall i :: 0 <= i <= c.retry && i < |script| ==>
      && !FallsBack(c, name, script[i]) && !ReadFails(script[i])
      && Votes(c.retryHooks, Observed(script[i].outcome).0, Observed(script[i].outcome).1)
    ensures r.steps == r.attempts == c.retry + 1
    ensures r.backoffArgs == seq(c.retry, i => i + 1)
    ensures r.err == Observed(script[c.retry].outcome).1
    ensures r.reply == if r.err != Nil then None else Some(Observed(script[c.retry].outcome).0)
  {
    assert r.steps < c.retry + 1 ==> Retries(c, name, script[r.steps - 1], r.steps);
  }

  /** With only the default hook, an attempt whose error is nil is never
      retried, whatever its status code: it ends the run. */
  lemma DefaultHookSettlesOnNil(c: Cast, name: string, script: seq<Step>, r: Run, raw: RawResponse, body: seq<bv8>)
    requires IsRun(c, name, script, r)
    requires 0 <= c.retry
    requires c.retryHooks == DefaultRetryHooks()
    requires !FallsBack(c, name, script[0])
    requires script[0].outcome == Received(raw, body, Nil)
    ensures r.steps == 1 && r.attempts == 1
    ensures r.reply == Some(Reply(Some(raw), raw.statusCode, body)) && r.err == Nil
  {
    DefaultHooksVote(Reply(Some(raw), raw.statusCode, body), Nil);
    NoVoteOneAttempt(c, name, script, r);
  }

  /** When no circuit is selected the breaker's verdicts are never
      consulted: the run is the same with every gate replaced by `Admit`. */
  lemma NoCircuitIgnoresGates(c: Cast, name: string, script: seq<Step>, r: Run)
    requires IsRun(c, name, script, r)
    requires SelectCircuit(c.circuits, name).None?
    ensures IsRun(c, name, seq(|script|, i requires 0 <= i < |script| => script[i].(gate := Admit)), r)
  {
    var admitted := seq(|script|, i requires 0 <= i < |script| => script[i].(gate := Admit));
    if 0 <= c.retry {
      forall i | 0 <= i < |script|
        ensures !FallsBack(c, name, admitted[i]) && !FallsBack(c, name, script[i])
        ensures admitted[i].outcome == script[i].outcome && admitted[i].draw == script[i].draw
        ensures Retries(c, name, admitted[i], i + 1) == Retries(c, name, script[i], i + 1)
      {
      }
      assert forall i :: 0 <= i < r.steps - 1 ==> Retries(c, name, admitted[i], i + 1);
      assert !Retries(c, name, admitted[r.steps - 1], r.steps);
      assert forall i :: 0 <= i < |r.waits| ==> admitted[i].draw == script[i].draw;
      assert Ends(c, name, admitted, r);
    }
  }

  /** The scenario of budget 3, a hook that always votes, and a constant
      10ms backoff: four attempts, three waits of 10ms after attempts 1, 2
      and 3, and the fourth attempt's response as the result. Here the
      example program's hook votes because every attempt answers 500; each
      attempt reads a different body, so the result is told apart as the
      fourth response. */
  lemma FourAttemptsScenario(name: string, script: seq<Step>, r: Run, raw: RawResponse)
    requires raw.statusCode == 500
    requires |script| == 4
    requires forall i :: 0 <= i < 4 ==> script[i].outcome == Received(raw, [i as bv8], Nil) && script[i].gate == Admit
    requires IsRun(Cast(3, Some(Constant(10 * Millisecond)), DefaultRetryHooks() + [RetryUnlessOk], map[], []),
                   name, script, r)
    ensures r.attempts == 4
    ensures r.backoffArgs == [1, 2, 3]
    ensures r.waits == [10 * Millisecond, 10 * Millisecond, 10 * Millisecond]
    ensures r.reply == Some(Reply(Some(raw), 500, [3])) && r.err == Nil
  {
    var c := Cast(3, Some(Constant(10 * Millisecond)), DefaultRetryHooks() + [RetryUnlessOk], map[], []);
    forall i | 0 <= i < 4
      ensures Votes(c.retryHooks, Observed(script[i].outcome).0, Observed(script[i].outcome).1)
    {
      ExampleHookVotes(Reply(Some(raw), 500, [i as bv8]), Nil);
    }
    ExhaustsBudget(c, name, script, r);
  }
}
