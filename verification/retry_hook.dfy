/** The retry hooks and the way `genReply` evaluates them. */
module RetryHooks {
  import opened Errors
  import opened Responses

  /** A retry condition: it sees the attempt's response and error and
      returns a vote. A Go hook may be a closure with state of its own; the
      model's hooks are stateless, so equal inputs always get equal votes. */
  type RetryHook = (Reply, Error) -> bool

  /** The default `retry` predicate: ignores the response and classifies
      the error. */
  function DefaultRetry(resp: Reply, e: Error): (r: bool)
    ensures r <==> IsNetworkErr(e) || IsEOF(e)
    ensures e == Nil ==> !r
  {
    ShouldRetry(e)
  }

  /** `defaultRetryHooks`: exactly the one default predicate. */
  function DefaultRetryHooks(): (hooks: seq<RetryHook>)
    ensures |hooks| == 1
    ensures forall r, e :: hooks[0](r, e) == ShouldRetry(e)
  {
    [DefaultRetry]
  }

  /** Some hook in the list votes to retry. */
  predicate Votes(hooks: seq<RetryHook>, r: Reply, e: Error) {
    exists i :: 0 <= i < |hooks| && hooks[i](r, e)
  }

  /** The hook loop of `genReply`: hooks run in list order and the first
      vote to retry stops the evaluation. `called` is how many hooks ran. */
  method EvalHooks(hooks: seq<RetryHook>, r: Reply, e: Error) returns (vote: bool, called: nat)
    ensures vote <==> Votes(hooks, r, e)
    ensures called <= |hooks|
    ensures vote ==> 1 <= called && hooks[called - 1](r, e)
    ensures !vote ==> called == |hooks|
    ensures forall j :: 0 <= j < called && (!vote || j < called - 1) ==> !hooks[j](r, e)
  {
    vote := false;
    called := 0;
    while called < |hooks|
      invariant called <= |hooks|
      invariant forall j :: 0 <= j < called ==> !hooks[j](r, e)
    {
      var h := hooks[called];
      called := called + 1;
      if h(r, e) {
        vote := true;
        return;
      }
    }
  }

  /** With only the default hook, the vote is the classification of the
      error, whatever the response; in particular a nil error is never
      retried, whatever the status code. */
  lemma DefaultHooksVote(r: Reply, e: Error)
    ensures Votes(DefaultRetryHooks(), r, e) <==> ShouldRetry(e)
    ensures !Votes(DefaultRetryHooks(), r, Nil)
  {
    var hooks := DefaultRetryHooks();
    if ShouldRetry(e) {
      assert hooks[0](r, e);
    }
  }

  /** Appending hooks keeps the earlier ones first: the joined list votes
      exactly when either part does, and when the first part votes the
      appended hooks do not change the vote. */
  lemma {:induction false} VotesAppend(a: seq<RetryHook>, b: seq<RetryHook>, r: Reply, e: Error)
    ensures Votes(a + b, r, e) <==> Votes(a, r, e) || Votes(b, r, e)
  {
    if Votes(a + b, r, e) {
      var i :| 0 <= i < |a + b| && (a + b)[i](r, e);
      if i >= |a| {
        assert b[i - |a|](r, e);
      }
    }
    if Votes(a, r, e) {
      var i :| 0 <= i < |a| && a[i](r, e);
      assert (a + b)[i](r, e);
    }
    if Votes(b, r, e) {
      var i :| 0 <= i < |b| && b[i](r, e);
      assert (a + b)[|a| + i](r, e);
    }
  }

  /** The user hook of the example program: retry on any error or on any
      status other than 200. */
  function RetryUnlessOk(resp: Reply, e: Error): (r: bool) {
    e != Nil || !StatusOk(resp)
  }

  /** The example hook added after the defaults: every failed or non-200
      attempt is voted for, and a nil-error 200 reply is not. */
  lemma ExampleHookVotes(r: Reply, e: Error)
    ensures Votes(DefaultRetryHooks() + [RetryUnlessOk], r, e) <==> e != Nil || !StatusOk(r)
  {
    VotesAppend(DefaultRetryHooks(), [RetryUnlessOk], r, e);
    DefaultHooksVote(r, e);
    if e != Nil || !StatusOk(r) {
      assert [RetryUnlessOk][0](r, e);
    }
  }
}
