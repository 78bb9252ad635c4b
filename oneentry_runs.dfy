/** Sequences of `fetchApiClient` calls made one after another (each awaited before the next starts).
    These lemmas state what the module promises over the whole life of the process: a success is
    cached for good, a failure is not cached, at most one client is ever constructed, and the
    "still null after setup" error never surfaces. */
module OneEntryRuns {
  import opened Wrappers
  import opened OneEntry

  /** The state after a sequence of calls, and the outcome of each call in order. */
  datatype Trace = Trace(final: Option<Client>, outcomes: seq<Result<Client, Error>>)

  /** Calls `fetchApiClient` once per element of `calls`, starting from state `client`. */
  function Run(client: Option<Client>, calls: seq<Inputs>): (r: Trace)
    ensures |r.outcomes| == |calls|
    // once set, the client is never reset (monotonicity)
    ensures client.Some? ==> r.final == client
    decreases |calls|
  {
    if calls == [] then Trace(client, [])
    else
      var step := Fetch(client, calls[0]);
      var rest := Run(step.client, calls[1..]);
      Trace(rest.final, [step.outcome] + rest.outcomes)
  }

  /** How many calls of the run entered the `try` block (read the token and, if that succeeded,
      called `defineOneEntry`). */
  function Attempts(client: Option<Client>, calls: seq<Inputs>): nat
    decreases |calls|
  {
    if calls == [] then 0
    else
      (if EntersTry(client, calls[0]) then 1 else 0) + Attempts(Fetch(client, calls[0]).client, calls[1..])
  }

  /** How many calls of the run stored a newly constructed client. */
  function Constructions(client: Option<Client>, calls: seq<Inputs>): nat
    decreases |calls|
  {
    if calls == [] then 0
    else
      var next := Fetch(client, calls[0]).client;
      (if client.None? && next.Some? then 1 else 0) + Constructions(next, calls[1..])
  }

  /** How many of the calls saw a configured project URL. */
  function ConfiguredCalls(calls: seq<Inputs>): nat
    decreases |calls|
  {
    if calls == [] then 0
    else (if UrlMissing(calls[0].env.projectUrl) then 0 else 1) + ConfiguredCalls(calls[1..])
  }

  /** A cached client answers every later call, and none of them attempts a construction. */
  lemma {:induction false} CachedClientServesEveryCall(c: Client, calls: seq<Inputs>)
    ensures forall i :: 0 <= i < |calls| ==> Run(Some(c), calls).outcomes[i] == Ok(c)
    ensures Attempts(Some(c), calls) == 0
    decreases |calls|
  {
    if calls != [] {
      CachedClientServesEveryCall(c, calls[1..]);
    }
  }

  /** No call of any run rejects with "API client is still null after setup". */
  lemma {:induction false} NeverStillNullAfterSetup(client: Option<Client>, calls: seq<Inputs>)
    ensures forall i :: 0 <= i < |calls| ==> Run(client, calls).outcomes[i] != Err(StillNullAfterSetup)
    decreases |calls|
  {
    if calls != [] {
      NeverStillNullAfterSetup(Fetch(client, calls[0]).client, calls[1..]);
    }
  }

  /** Once a call has returned a client, the state holds that client for good and every later call
      returns the same instance. */
  lemma {:induction false} SuccessIsCachedForGood(client: Option<Client>, calls: seq<Inputs>, i: nat)
    requires i < |calls| && Run(client, calls).outcomes[i].Ok?
    ensures Run(client, calls).final == Some(Run(client, calls).outcomes[i].value)
    ensures forall j :: i <= j < |calls| ==> Run(client, calls).outcomes[j] == Run(client, calls).outcomes[i]
    decreases |calls|
  {
    var step := Fetch(client, calls[0]);
    if i == 0 {
      CachedClientServesEveryCall(step.outcome.value, calls[1..]);
    } else {
      SuccessIsCachedForGood(step.client, calls[1..], i - 1);
    }
  }

  /** A failure is not cached: a run from the unset state ends unset exactly when every call in it
      failed. */
  lemma {:induction false} UnsetExactlyWhenAllFailed(calls: seq<Inputs>)
    ensures Run(None, calls).final == None <==> forall i :: 0 <= i < |calls| ==> Run(None, calls).outcomes[i].Err?
    decreases |calls|
  {
    if calls != [] {
      var step := Fetch(None, calls[0]);
      if step.outcome.Ok? {
        SuccessIsCachedForGood(None, calls, 0);
      } else {
        var rest := Run(None, calls[1..]);
        UnsetExactlyWhenAllFailed(calls[1..]);
        assert Run(None, calls) == Trace(rest.final, [step.outcome] + rest.outcomes);
        assert forall k :: 0 <= k < |rest.outcomes| ==> rest.outcomes[k] == Run(None, calls).outcomes[k + 1];
      }
    }
  }

  /** While the client stays unset, every call that finds the project URL configured enters the
      `try` block again: it reads the token and, if that succeeds, calls `defineOneEntry`. */
  lemma {:induction false} EveryConfiguredCallRetries(calls: seq<Inputs>)
    requires Run(None, calls).final == None
    ensures Attempts(None, calls) == ConfiguredCalls(calls)
    decreases |calls|
  {
    if calls != [] {
      EveryConfiguredCallRetries(calls[1..]);
    }
  }

  /** In sequential execution at most one client is ever stored: exactly one when the run starts
      unset and ends set, none otherwise. */
  lemma {:induction false} AtMostOneConstruction(client: Option<Client>, calls: seq<Inputs>)
    ensures Constructions(client, calls) == if client.None? && Run(client, calls).final.Some? then 1 else 0
    decreases |calls|
  {
    if calls != [] {
      AtMostOneConstruction(Fetch(client, calls[0]).client, calls[1..]);
    }
  }

  /** From the unset state, a call whose URL, token read and construction all succeed stores and
      returns the client it built. */
  lemma FirstSuccess(next: Inputs)
    requires !UrlMissing(next.env.projectUrl) && next.tokenRead.TokenCookie? && next.sdk.SdkReturns?
    ensures Bootstrap(next.env.projectUrl.value, next).Some?
    ensures Fetch(None, next) == Step(Bootstrap(next.env.projectUrl.value, next), Ok(Bootstrap(next.env.projectUrl.value, next).value))
  {
  }

  /** A failure is not cached: after a run that left the client unset, the next call behaves
      exactly as the very first call of the process would. */
  lemma {:induction false} NextCallAfterFailuresIsFirstCall(calls: seq<Inputs>, next: Inputs)
    requires Run(None, calls).final == None
    ensures Run(None, calls + [next]).final == Fetch(None, next).client
    ensures Run(None, calls + [next]).outcomes[|calls|] == Fetch(None, next).outcome
    decreases |calls|
  {
    if calls == [] {
      assert calls + [next] == [next];
      assert [next][1..] == [];
    } else {
      assert Fetch(None, calls[0]).client == None;
      assert (calls + [next])[0] == calls[0];
      assert (calls + [next])[1..] == calls[1..] + [next];
      NextCallAfterFailuresIsFirstCall(calls[1..], next);
    }
  }

  /** After any number of failed calls, a call whose URL, token read and construction all succeed
      stores and returns the client it built. */
  lemma RetrySucceedsAfterFailures(calls: seq<Inputs>, next: Inputs)
    requires Run(None, calls).final == None
    requires !UrlMissing(next.env.projectUrl) && next.tokenRead.TokenCookie? && next.sdk.SdkReturns?
    ensures Bootstrap(next.env.projectUrl.value, next).Some?
    ensures Run(None, calls + [next]).final == Bootstrap(next.env.projectUrl.value, next)
    ensures Run(None, calls + [next]).outcomes[|calls|] == Ok(Bootstrap(next.env.projectUrl.value, next).value)
  {
    NextCallAfterFailuresIsFirstCall(calls, next);
    FirstSuccess(next);
  }
}
