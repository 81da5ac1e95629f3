/**
 * data_wrangler/gpt_utils.py: the older `generate_chat_response`, written
 * against the openai < 1 client. The model is fixed by `big_context`; a
 * service-unavailable error is retried, and so is an API error whose text
 * says "bad gateway", with the same back-off schedule and ceiling as the
 * newer variants.
 */
module LegacyGptUtils {
  import opened Wrappers
  import opened Text
  import opened Backoff

  /** `"gpt-3.5-turbo-16k" if big_context else "gpt-3.5-turbo"` */
  function ModelFor(bigContext: bool): string {
    if bigContext then TURBO_16K else TURBO
  }

  /** The 16k model is used exactly when `big_context` is set, gpt-3.5-turbo exactly when it is not. */
  lemma ModelChoice(bigContext: bool)
    ensures ModelFor(bigContext) == TURBO_16K <==> bigContext
    ensures ModelFor(bigContext) == TURBO <==> !bigContext
  {
    assert |TURBO| != |TURBO_16K|;
  }

  /**
   * In openai < 1, `ServiceUnavailableError` and `APIError` are separate
   * subclasses of `OpenAIError`, so of the client's errors only a plain API
   * error reaches the second handler.
   */
  predicate IsV0ApiError(k: ErrorKind) {
    k == OtherApi
  }

  /** The errors retried while attempts remain: service unavailable, and an API error whose text says "bad gateway". */
  predicate Retryable(e: ApiError) {
    e.kind == ServiceUnavailable || (IsV0ApiError(e.kind) && BadGateway(e))
  }

  /** The reply at attempt `a` was an error that is retried while attempts remain. */
  predicate RetryableAt(api: (string, nat) -> Reply, model: string, a: nat) {
    api(model, a).Err? && Retryable(api(model, a).error)
  }

  /**
   * `generate_chat_response(messages, big_context, attempt)`, where
   * `api(m, a)` is the reply to the call made with model `m` at attempt `a`.
   * Every call is made at temperature 0.5, and every retry passes
   * `big_context` on.
   */
  function GenerateChatResponse(api: (string, nat) -> Reply, bigContext: bool, attempt: nat): (c: Chat)
    ensures 1 <= |c.calls| && |c.sleeps| == |c.calls| - 1
    ensures attempt <= MAX_ATTEMPTS ==> |c.calls| <= MAX_ATTEMPTS - attempt + 1
    ensures attempt > MAX_ATTEMPTS ==> |c.calls| == 1
    decreases if attempt <= MAX_ATTEMPTS then MAX_ATTEMPTS - attempt else 0
  {
    var model := ModelFor(bigContext);
    var call := Call(model, attempt, DEFAULT_TEMPERATURE);
    match api(model, attempt)
    case Ok(text) => Chat(Success(text), [call], [])
    case Err(e) =>
      if !Retryable(e) || attempt + 1 > MAX_ATTEMPTS then Chat(Failure(e), [call], [])
      else
        var rest := GenerateChatResponse(api, bigContext, attempt + 1);
        Chat(rest.result, [call] + rest.calls, [SleepSeconds(attempt + 1)] + rest.sleeps)
  }

  /** One retry: the call, a sleep, and the exchange from the next attempt. */
  lemma Unfold(api: (string, nat) -> Reply, bigContext: bool, attempt: nat)
    requires RetryableAt(api, ModelFor(bigContext), attempt) && attempt + 1 <= MAX_ATTEMPTS
    ensures var c := GenerateChatResponse(api, bigContext, attempt);
            var rest := GenerateChatResponse(api, bigContext, attempt + 1);
            c == Chat(rest.result, [Call(ModelFor(bigContext), attempt, DEFAULT_TEMPERATURE)] + rest.calls,
                      [SleepSeconds(attempt + 1)] + rest.sleeps)
  {
  }

  /** No retry: the reply is final. */
  lemma Final(api: (string, nat) -> Reply, bigContext: bool, attempt: nat)
    requires !(RetryableAt(api, ModelFor(bigContext), attempt) && attempt + 1 <= MAX_ATTEMPTS)
    ensures GenerateChatResponse(api, bigContext, attempt) ==
            Chat(Returned(api(ModelFor(bigContext), attempt)), [Call(ModelFor(bigContext), attempt, DEFAULT_TEMPERATURE)], [])
  {
  }

  /** The `k`-th call is made with the model `big_context` selects, at attempt `attempt + k`. */
  predicate CallsFrom(calls: seq<Call>, bigContext: bool, attempt: nat) {
    forall i :: 0 <= i < |calls| ==> calls[i] == Call(ModelFor(bigContext), attempt + i, DEFAULT_TEMPERATURE)
  }

  /** The `k`-th sleep, before the retry at attempt `attempt + k + 1`, lasts 2^(attempt + k + 2) seconds. */
  predicate SleepsFrom(sleeps: seq<nat>, attempt: nat) {
    forall k :: 0 <= k < |sleeps| ==> sleeps[k] == SleepSeconds(attempt + k + 1)
  }

  /** Every call but the last, from attempt `attempt` on, failed with a retryable error. */
  predicate RetriedBefore(api: (string, nat) -> Reply, bigContext: bool, attempt: nat, n: nat) {
    forall a :: attempt <= a < attempt + n - 1 ==> RetryableAt(api, ModelFor(bigContext), a)
  }

  /** `big_context`, and so the model, is kept across retries, and the attempt counter goes up by one per call. */
  lemma {:induction false} ChatCalls(api: (string, nat) -> Reply, bigContext: bool, attempt: nat)
    ensures CallsFrom(GenerateChatResponse(api, bigContext, attempt).calls, bigContext, attempt)
    decreases if attempt <= MAX_ATTEMPTS then MAX_ATTEMPTS - attempt else 0
  {
    var c := GenerateChatResponse(api, bigContext, attempt);
    var call := Call(ModelFor(bigContext), attempt, DEFAULT_TEMPERATURE);
    if RetryableAt(api, ModelFor(bigContext), attempt) && attempt + 1 <= MAX_ATTEMPTS {
      ChatCalls(api, bigContext, attempt + 1);
      var rest := GenerateChatResponse(api, bigContext, attempt + 1);
      Unfold(api, bigContext, attempt);
      assert c.calls == [call] + rest.calls;
      assert CallsFrom(rest.calls, bigContext, attempt + 1);
      forall i | 1 <= i < |c.calls|
        ensures c.calls[i] == Call(ModelFor(bigContext), attempt + i, DEFAULT_TEMPERATURE)
      {
        assert c.calls[i] == rest.calls[i - 1];
      }
    } else {
      Final(api, bigContext, attempt);
    }
  }

  /** The counter is incremented before the sleep: the sleeps from attempt 0 are 4, 8, 16, ... seconds. */
  lemma {:induction false} ChatSleeps(api: (string, nat) -> Reply, bigContext: bool, attempt: nat)
    ensures SleepsFrom(GenerateChatResponse(api, bigContext, attempt).sleeps, attempt)
    decreases if attempt <= MAX_ATTEMPTS then MAX_ATTEMPTS - attempt else 0
  {
    var c := GenerateChatResponse(api, bigContext, attempt);
    if RetryableAt(api, ModelFor(bigContext), attempt) && attempt + 1 <= MAX_ATTEMPTS {
      ChatSleeps(api, bigContext, attempt + 1);
      var rest := GenerateChatResponse(api, bigContext, attempt + 1);
      Unfold(api, bigContext, attempt);
      assert c.sleeps == [SleepSeconds(attempt + 1)] + rest.sleeps;
      assert SleepsFrom(rest.sleeps, attempt + 1);
      forall i | 1 <= i < |c.sleeps|
        ensures c.sleeps[i] == SleepSeconds(attempt + i + 1)
      {
        assert c.sleeps[i] == rest.sleeps[i - 1];
      }
    } else {
      Final(api, bigContext, attempt);
    }
  }

  /** Every call but the last failed with a retryable error. */
  lemma {:induction false} RetriedTrace(api: (string, nat) -> Reply, bigContext: bool, attempt: nat)
    ensures RetriedBefore(api, bigContext, attempt, |GenerateChatResponse(api, bigContext, attempt).calls|)
    decreases if attempt <= MAX_ATTEMPTS then MAX_ATTEMPTS - attempt else 0
  {
    if RetryableAt(api, ModelFor(bigContext), attempt) && attempt + 1 <= MAX_ATTEMPTS {
      RetriedTrace(api, bigContext, attempt + 1);
      Unfold(api, bigContext, attempt);
      assert RetriedBefore(api, bigContext, attempt + 1, |GenerateChatResponse(api, bigContext, attempt + 1).calls|);
    } else {
      Final(api, bigContext, attempt);
    }
  }

  /**
   * How the exchange ends: the result is the last call's reply, and a
   * failure is either not retryable or came once the incremented counter
   * passed the ceiling.
   */
  lemma {:induction false} ChatOutcome(api: (string, nat) -> Reply, bigContext: bool, attempt: nat)
    ensures var c := GenerateChatResponse(api, bigContext, attempt);
            c.result == Returned(api(ModelFor(bigContext), attempt + |c.calls| - 1))
    ensures var c := GenerateChatResponse(api, bigContext, attempt);
            c.result.Failure? ==> !Retryable(c.result.error) || attempt + |c.calls| > MAX_ATTEMPTS
    decreases if attempt <= MAX_ATTEMPTS then MAX_ATTEMPTS - attempt else 0
  {
    if RetryableAt(api, ModelFor(bigContext), attempt) && attempt + 1 <= MAX_ATTEMPTS {
      ChatOutcome(api, bigContext, attempt + 1);
      Unfold(api, bigContext, attempt);
    } else {
      Final(api, bigContext, attempt);
    }
  }

  /** From the default attempt 0: at most six calls. */
  lemma AtMostSixCalls(api: (string, nat) -> Reply, bigContext: bool)
    ensures |GenerateChatResponse(api, bigContext, 0).calls| <= MAX_ATTEMPTS + 1
  {
  }

  /** An API error that does not report a bad gateway is raised at once, and so is any error of another class. */
  lemma RaisedAtOnce(api: (string, nat) -> Reply, bigContext: bool, attempt: nat)
    requires api(ModelFor(bigContext), attempt).Err?
    requires var e := api(ModelFor(bigContext), attempt).error;
             e.kind != ServiceUnavailable && !(e.kind == OtherApi && BadGateway(e))
    ensures GenerateChatResponse(api, bigContext, attempt) ==
            Chat(Failure(api(ModelFor(bigContext), attempt).error), [Call(ModelFor(bigContext), attempt, DEFAULT_TEMPERATURE)], [])
  {
  }

  /**
   * A service that stays unavailable is called six times from attempt 0,
   * sleeping 4, 8, 16, 32 and 64 seconds in between, and the last error is
   * raised.
   */
  lemma AlwaysUnavailable(api: (string, nat) -> Reply, bigContext: bool, e: ApiError)
    requires e.kind == ServiceUnavailable
    requires forall a :: api(ModelFor(bigContext), a) == Err(e)
    ensures GenerateChatResponse(api, bigContext, 0).result == Failure(e)
    ensures |GenerateChatResponse(api, bigContext, 0).calls| == MAX_ATTEMPTS + 1
    ensures GenerateChatResponse(api, bigContext, 0).sleeps == [4, 8, 16, 32, 64]
  {
    var c := GenerateChatResponse(api, bigContext, 0);
    ChatOutcome(api, bigContext, 0);
    ChatSleeps(api, bigContext, 0);
    Schedule();
    assert |c.sleeps| == 5;
    assert c.sleeps[0] == SleepSeconds(1) && c.sleeps[1] == SleepSeconds(2) && c.sleeps[2] == SleepSeconds(3);
    assert c.sleeps[3] == SleepSeconds(4) && c.sleeps[4] == SleepSeconds(5);
  }
}
