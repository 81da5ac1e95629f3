/**
 * build/lib/squidtools/gpt_utils.py: `generate_chat_response`, which retries
 * connection, timeout and rate-limit errors and "bad gateway" API errors with
 * exponential back-off, and escalates once from gpt-3.5-turbo to the 16k
 * context model when the request is too long.
 */
module GptUtils {
  import opened Wrappers
  import opened Text
  import opened Backoff

  /** The classes the first handler retries unconditionally. */
  predicate Transient(k: ErrorKind) {
    k == ApiConnection || k == ApiTimeout || k == RateLimit
  }

  /** With openai >= 1 every client error except `NotApi` is an `openai.APIError`, `BadRequestError` included. */
  predicate IsApiError(k: ErrorKind) {
    k != NotApi
  }

  /** `"maximum context length" in str(e).lower()` */
  predicate ContextTooLong(e: ApiError) {
    Contains(Lower(e.message), "maximum context length")
  }

  /** What a handler does with an exception. */
  datatype Handling = Retry | Escalate | Raise

  /**
   * The handlers in the order they were evidently meant to apply: transient
   * errors are retried; a bad request is escalated to the 16k model when the
   * context is too long, smart context is on and the model is gpt-3.5-turbo,
   * and raised otherwise; any other API error is retried on "bad gateway"
   * and raised otherwise; anything else is raised.
   */
  function Classify(e: ApiError, model: string, smart: bool): Handling {
    if Transient(e.kind) then Retry
    else if e.kind == BadRequest then
      if smart && ContextTooLong(e) && model == TURBO then Escalate else Raise
    else if IsApiError(e.kind) && BadGateway(e) then Retry
    else Raise
  }

  /**
   * Exactly the context-length bad requests on gpt-3.5-turbo with smart
   * context on are escalated; exactly the transient errors and the other
   * API errors reporting a bad gateway are retried.
   */
  lemma ClassifyCases(e: ApiError, model: string, smart: bool)
    ensures Classify(e, model, smart) == Escalate <==> e.kind == BadRequest && smart && ContextTooLong(e) && model == TURBO
    ensures Classify(e, model, smart) == Retry <==>
            Transient(e.kind) || (e.kind != BadRequest && IsApiError(e.kind) && BadGateway(e))
  {
  }

  /**
   * The handlers as they are written: the `except openai.APIError` clause
   * comes before `except openai.BadRequestError`, and since a bad request is
   * an API error the first clause catches it, so the escalation branch is
   * never reached.
   */
  function ClassifyAsWritten(e: ApiError, model: string, smart: bool): (h: Handling)
    ensures h == Retry <==> Transient(e.kind) || (IsApiError(e.kind) && BadGateway(e))
  {
    if Transient(e.kind) then Retry
    else if IsApiError(e.kind) then
      if BadGateway(e) then Retry else Raise
    else Raise
  }

  /** As written, no error is ever escalated. */
  lemma AsWrittenNeverEscalates(e: ApiError, model: string, smart: bool)
    ensures ClassifyAsWritten(e, model, smart) != Escalate
  {
  }

  /** The text of the context-length error the API reports. */
  const CONTEXT_MESSAGE: string := "maximum context length"
  const CONTEXT_ERROR := ApiError(BadRequest, CONTEXT_MESSAGE)

  /** The message is already lower case, and has no 'b'. */
  lemma ContextMessageChars()
    ensures forall i :: 0 <= i < |CONTEXT_MESSAGE| ==> !IsUpperAscii(CONTEXT_MESSAGE[i])
    ensures 'b' !in CONTEXT_MESSAGE
  {
  }

  /** The message of `CONTEXT_ERROR` reports a context that is too long ... */
  lemma ContextErrorTooLong()
    ensures ContextTooLong(CONTEXT_ERROR)
  {
    var m := CONTEXT_MESSAGE;
    ContextMessageChars();
    LowerUnchanged(m);
    assert m[0..|m|] == m;
    assert OccursAt(Lower(m), "maximum context length", 0);
  }

  /** ... and not a bad gateway. */
  lemma ContextErrorNoGateway()
    ensures !BadGateway(CONTEXT_ERROR)
  {
    var m := CONTEXT_MESSAGE;
    ContextMessageChars();
    LowerUnchanged(m);
    forall i: nat | i <= |m| - 11
      ensures !OccursAt(m, "bad gateway", i)
    {
      assert m[i..i + 11][0] == m[i] && m[i] in m;
    }
  }

  /**
   * The input that shows the discrepancy: a context-length bad request on
   * gpt-3.5-turbo with smart context on is raised as written, but escalated
   * by the intended handlers.
   */
  lemma ContextErrorDiscrepancy()
    ensures ClassifyAsWritten(CONTEXT_ERROR, TURBO, true) == Raise
    ensures Classify(CONTEXT_ERROR, TURBO, true) == Escalate
  {
    ContextErrorTooLong();
    ContextErrorNoGateway();
  }

  /** Which order of the handlers an exchange runs: the one in the file, or the intended one. */
  datatype HandlerOrder = AsWritten | Intended

  /** What the handlers in the given order do with an exception. */
  function Handle(order: HandlerOrder, e: ApiError, model: string, smart: bool): Handling {
    match order
    case AsWritten => ClassifyAsWritten(e, model, smart)
    case Intended => Classify(e, model, smart)
  }

  /** What follows a failed call: nothing, or a call to `model` at `attempt` after the given sleeps. */
  datatype Next = Stop | Go(model: string, attempt: nat, sleeps: seq<nat>)

  /**
   * The handlers' decision after error `e` on the call to `model` at
   * `attempt`: a retry goes on with the same model at the next attempt after
   * sleeping, while attempts are left; an escalation goes on with the 16k
   * model at the same attempt, without sleeping.
   */
  function NextCall(order: HandlerOrder, e: ApiError, model: string, attempt: nat, smart: bool): (n: Next)
    ensures n.Go? ==>
              (n.model == model && n.attempt == attempt + 1 <= MAX_ATTEMPTS && n.sleeps == [SleepSeconds(attempt + 1)]) ||
              (model == TURBO && n.model == TURBO_16K && n.attempt == attempt && n.sleeps == [])
  {
    match Handle(order, e, model, smart)
    case Retry => if attempt + 1 <= MAX_ATTEMPTS then Go(model, attempt + 1, [SleepSeconds(attempt + 1)]) else Stop
    case Escalate => Go(TURBO_16K, attempt, [])
    case Raise => Stop
  }

  /**
   * `generate_chat_response(messages, model, attempt, smart_context_setting,
   * temperature)` with the handlers in the given order, where `api(m, a)` is
   * the reply to the call made with model `m` at attempt `a`. Every recursive
   * call passes only the model and the attempt, so smart context and
   * temperature fall back to their defaults. At most one call more than the
   * single-model policy: the escalation, which only the intended order makes.
   */
  function GenerateChatResponse(order: HandlerOrder, api: (string, nat) -> Reply, model: string, attempt: nat,
                                smart: bool, temperature: real): (c: Chat)
    ensures 1 <= |c.calls| && |c.sleeps| < |c.calls|
    ensures attempt <= MAX_ATTEMPTS ==> |c.calls| <= MAX_ATTEMPTS - attempt + (if model == TURBO then 2 else 1)
    ensures attempt > MAX_ATTEMPTS ==> |c.calls| <= (if model == TURBO then 2 else 1)
    ensures c.calls[0] == Call(model, attempt, temperature)
    decreases if attempt <= MAX_ATTEMPTS then MAX_ATTEMPTS - attempt else 0, if model == TURBO then 1 else 0
  {
    var call := Call(model, attempt, temperature);
    match api(model, attempt)
    case Ok(text) => Chat(Success(text), [call], [])
    case Err(e) =>
      var n := NextCall(order, e, model, attempt, smart);
      if n.Stop? then Chat(Failure(e), [call], [])
      else
        var rest := GenerateChatResponse(order, api, n.model, n.attempt, true, DEFAULT_TEMPERATURE);
        Chat(rest.result, [call] + rest.calls, n.sleeps + rest.sleeps)
  }

  /** The call at position `i` switched model from the one before. */
  predicate Switched(calls: seq<Call>, i: nat) {
    0 < i < |calls| && calls[i].model != calls[i - 1].model
  }

  /** Every call uses `model` or, only when that is gpt-3.5-turbo, the 16k model. */
  predicate ModelsFrom(calls: seq<Call>, model: string) {
    forall i :: 0 <= i < |calls| ==> calls[i].model == model || (model == TURBO && calls[i].model == TURBO_16K)
  }

  /** Once a call uses the 16k model, every later call does. */
  predicate StaysEscalated(calls: seq<Call>) {
    forall i, j :: 0 <= i <= j < |calls| && calls[i].model == TURBO_16K ==> calls[j].model == TURBO_16K
  }

  /** A switch of model keeps the attempt; any other step increments it. */
  predicate AttemptsStep(calls: seq<Call>) {
    forall i :: 0 < i < |calls| ==> calls[i].attempt == calls[i - 1].attempt + (if Switched(calls, i) then 0 else 1)
  }

  /** Every call after the first uses the default temperature. */
  predicate RetriesAtDefault(calls: seq<Call>) {
    forall i :: 0 < i < |calls| ==> calls[i].temperature == DEFAULT_TEMPERATURE
  }

  /** The `k`-th sleep, before the retry at attempt `attempt + k + 1`, lasts 2^(attempt + k + 2) seconds. */
  predicate SleepsFrom(sleeps: seq<nat>, attempt: nat) {
    forall k :: 0 <= k < |sleeps| ==> sleeps[k] == SleepSeconds(attempt + k + 1)
  }

  /** The result of an exchange is the reply to its last call. */
  predicate EndsWithLastReply(api: (string, nat) -> Reply, c: Chat)
    requires c.calls != []
  {
    var last := c.calls[|c.calls| - 1];
    c.result == Returned(api(last.model, last.attempt))
  }

  /**
   * A failed exchange ends on an error the handlers raise, given the model of
   * the last call and its smart-context setting (the caller's for the first
   * call, the default for the others), or on a retryable one with no attempts
   * left.
   */
  predicate FailsOnlyWhenRaised(order: HandlerOrder, c: Chat, smart: bool)
    requires c.calls != []
  {
    c.result.Failure? ==>
      var last := c.calls[|c.calls| - 1];
      var h := Handle(order, c.result.error, last.model, if |c.calls| == 1 then smart else true);
      h == Raise || (h == Retry && last.attempt + 1 > MAX_ATTEMPTS)
  }

  /**
   * The models of the calls: a call uses the caller's model or, only when
   * that is gpt-3.5-turbo, the 16k model, and once the 16k model is used
   * every later call uses it.
   */
  lemma {:induction false} ModelTrace(order: HandlerOrder, api: (string, nat) -> Reply, model: string, attempt: nat, smart: bool, temperature: real)
    ensures ModelsFrom(GenerateChatResponse(order, api, model, attempt, smart, temperature).calls, model)
    ensures StaysEscalated(GenerateChatResponse(order, api, model, attempt, smart, temperature).calls)
    decreases if attempt <= MAX_ATTEMPTS then MAX_ATTEMPTS - attempt else 0, if model == TURBO then 1 else 0
  {
    var c := GenerateChatResponse(order, api, model, attempt, smart, temperature);
    if api(model, attempt).Err? && NextCall(order, api(model, attempt).error, model, attempt, smart).Go? {
      var n := NextCall(order, api(model, attempt).error, model, attempt, smart);
      var rest := GenerateChatResponse(order, api, n.model, n.attempt, true, DEFAULT_TEMPERATURE);
      ModelTrace(order, api, n.model, n.attempt, true, DEFAULT_TEMPERATURE);
      assert c.calls == [Call(model, attempt, temperature)] + rest.calls;
      assert ModelsFrom(rest.calls, n.model) && StaysEscalated(rest.calls);
    } else {
      assert c.calls == [Call(model, attempt, temperature)] && c.sleeps == [];
    }
  }

  /** An escalation keeps the attempt while a retry increments it. */
  lemma {:induction false} AttemptTrace(order: HandlerOrder, api: (string, nat) -> Reply, model: string, attempt: nat, smart: bool, temperature: real)
    ensures AttemptsStep(GenerateChatResponse(order, api, model, attempt, smart, temperature).calls)
    decreases if attempt <= MAX_ATTEMPTS then MAX_ATTEMPTS - attempt else 0, if model == TURBO then 1 else 0
  {
    var c := GenerateChatResponse(order, api, model, attempt, smart, temperature);
    if api(model, attempt).Err? && NextCall(order, api(model, attempt).error, model, attempt, smart).Go? {
      var n := NextCall(order, api(model, attempt).error, model, attempt, smart);
      var rest := GenerateChatResponse(order, api, n.model, n.attempt, true, DEFAULT_TEMPERATURE);
      AttemptTrace(order, api, n.model, n.attempt, true, DEFAULT_TEMPERATURE);
      assert c.calls == [Call(model, attempt, temperature)] + rest.calls;
      assert AttemptsStep(rest.calls);
      assert forall i :: 1 < i < |c.calls| ==> Switched(c.calls, i) == Switched(rest.calls, i - 1);
    } else {
      assert c.calls == [Call(model, attempt, temperature)] && c.sleeps == [];
    }
  }

  /** An exchange escalates at most once. */
  lemma EscalatesAtMostOnce(order: HandlerOrder, api: (string, nat) -> Reply, model: string, attempt: nat, smart: bool, temperature: real, i: nat, j: nat)
    requires Switched(GenerateChatResponse(order, api, model, attempt, smart, temperature).calls, i)
    requires Switched(GenerateChatResponse(order, api, model, attempt, smart, temperature).calls, j)
    ensures i == j
  {
    ModelTrace(order, api, model, attempt, smart, temperature);
  }

  /** Every call after the first is made with the default temperature. */
  lemma {:induction false} DefaultsOnRetry(order: HandlerOrder, api: (string, nat) -> Reply, model: string, attempt: nat, smart: bool, temperature: real)
    ensures RetriesAtDefault(GenerateChatResponse(order, api, model, attempt, smart, temperature).calls)
    decreases if attempt <= MAX_ATTEMPTS then MAX_ATTEMPTS - attempt else 0, if model == TURBO then 1 else 0
  {
    var c := GenerateChatResponse(order, api, model, attempt, smart, temperature);
    if api(model, attempt).Err? && NextCall(order, api(model, attempt).error, model, attempt, smart).Go? {
      var n := NextCall(order, api(model, attempt).error, model, attempt, smart);
      var rest := GenerateChatResponse(order, api, n.model, n.attempt, true, DEFAULT_TEMPERATURE);
      DefaultsOnRetry(order, api, n.model, n.attempt, true, DEFAULT_TEMPERATURE);
      assert c.calls == [Call(model, attempt, temperature)] + rest.calls;
      assert RetriesAtDefault(rest.calls);
    } else {
      assert c.calls == [Call(model, attempt, temperature)] && c.sleeps == [];
    }
  }

  /** The sleeps before the retries follow the back-off schedule; an escalation does not sleep. */
  lemma {:induction false} SleepTrace(order: HandlerOrder, api: (string, nat) -> Reply, model: string, attempt: nat, smart: bool, temperature: real)
    ensures SleepsFrom(GenerateChatResponse(order, api, model, attempt, smart, temperature).sleeps, attempt)
    decreases if attempt <= MAX_ATTEMPTS then MAX_ATTEMPTS - attempt else 0, if model == TURBO then 1 else 0
  {
    var c := GenerateChatResponse(order, api, model, attempt, smart, temperature);
    if api(model, attempt).Err? && NextCall(order, api(model, attempt).error, model, attempt, smart).Go? {
      var n := NextCall(order, api(model, attempt).error, model, attempt, smart);
      var rest := GenerateChatResponse(order, api, n.model, n.attempt, true, DEFAULT_TEMPERATURE);
      SleepTrace(order, api, n.model, n.attempt, true, DEFAULT_TEMPERATURE);
      assert c.sleeps == n.sleeps + rest.sleeps;
      if n.sleeps != [] {
        SleepsShift(rest.sleeps, attempt);
      }
    } else {
      assert c.calls == [Call(model, attempt, temperature)] && c.sleeps == [];
    }
  }

  /** A sleep before the retry at `attempt + 1`, followed by the schedule from there, is the schedule from `attempt`. */
  lemma SleepsShift(sleeps: seq<nat>, attempt: nat)
    requires SleepsFrom(sleeps, attempt + 1)
    ensures SleepsFrom([SleepSeconds(attempt + 1)] + sleeps, attempt)
  {
    var all := [SleepSeconds(attempt + 1)] + sleeps;
    forall k | 0 < k < |all|
      ensures all[k] == SleepSeconds(attempt + k + 1)
    {
      assert all[k] == sleeps[k - 1];
    }
  }

  /** How the exchange ends: with the reply to its last call. */
  lemma {:induction false} LastReply(order: HandlerOrder, api: (string, nat) -> Reply, model: string, attempt: nat, smart: bool, temperature: real)
    ensures EndsWithLastReply(api, GenerateChatResponse(order, api, model, attempt, smart, temperature))
    decreases if attempt <= MAX_ATTEMPTS then MAX_ATTEMPTS - attempt else 0, if model == TURBO then 1 else 0
  {
    var c := GenerateChatResponse(order, api, model, attempt, smart, temperature);
    if api(model, attempt).Err? && NextCall(order, api(model, attempt).error, model, attempt, smart).Go? {
      var n := NextCall(order, api(model, attempt).error, model, attempt, smart);
      var rest := GenerateChatResponse(order, api, n.model, n.attempt, true, DEFAULT_TEMPERATURE);
      LastReply(order, api, n.model, n.attempt, true, DEFAULT_TEMPERATURE);
      assert c.calls == [Call(model, attempt, temperature)] + rest.calls;
      assert EndsWithLastReply(api, rest);
      assert c.calls[|c.calls| - 1] == rest.calls[|rest.calls| - 1];
    } else {
      assert c.calls == [Call(model, attempt, temperature)] && c.sleeps == [];
    }
  }

  /** How a failed exchange ends: on an error that is raised, or retryable with no attempts left. */
  lemma {:induction false} FailureCause(order: HandlerOrder, api: (string, nat) -> Reply, model: string, attempt: nat, smart: bool, temperature: real)
    ensures FailsOnlyWhenRaised(order, GenerateChatResponse(order, api, model, attempt, smart, temperature), smart)
    decreases if attempt <= MAX_ATTEMPTS then MAX_ATTEMPTS - attempt else 0, if model == TURBO then 1 else 0
  {
    var c := GenerateChatResponse(order, api, model, attempt, smart, temperature);
    if api(model, attempt).Err? && NextCall(order, api(model, attempt).error, model, attempt, smart).Go? {
      var n := NextCall(order, api(model, attempt).error, model, attempt, smart);
      var rest := GenerateChatResponse(order, api, n.model, n.attempt, true, DEFAULT_TEMPERATURE);
      FailureCause(order, api, n.model, n.attempt, true, DEFAULT_TEMPERATURE);
      assert c.calls == [Call(model, attempt, temperature)] + rest.calls;
      assert c.result == rest.result && |c.calls| > 1;
      assert c.calls[|c.calls| - 1] == rest.calls[|rest.calls| - 1];
    } else if api(model, attempt).Err? {
      var e := api(model, attempt).error;
      assert c == Chat(Failure(e), [Call(model, attempt, temperature)], []);
      var h := Handle(order, e, model, smart);
      assert h == Raise || (h == Retry && attempt + 1 > MAX_ATTEMPTS);
    }
  }

  /** From the default attempt 0: at most seven calls, six to one model and the escalation. */
  lemma AtMostSevenCalls(order: HandlerOrder, api: (string, nat) -> Reply, model: string, smart: bool, temperature: real)
    ensures |GenerateChatResponse(order, api, model, 0, smart, temperature).calls| <= MAX_ATTEMPTS + 2
  {
  }

  /**
   * Smart context is not passed on: with it switched off, a rate-limit error
   * followed by a context-length error still escalates, because the retry
   * runs with the default setting.
   */
  lemma SmartContextResetOnRetry(api: (string, nat) -> Reply)
    requires api(TURBO, 0) == Err(ApiError(RateLimit, ""))
    requires api(TURBO, 1) == Err(CONTEXT_ERROR)
    requires api(TURBO_16K, 1) == Ok("answer")
    ensures GenerateChatResponse(Intended, api, TURBO, 0, false, DEFAULT_TEMPERATURE) ==
            Chat(Success("answer"), [Call(TURBO, 0, DEFAULT_TEMPERATURE), Call(TURBO, 1, DEFAULT_TEMPERATURE),
                                     Call(TURBO_16K, 1, DEFAULT_TEMPERATURE)], [SleepSeconds(1)])
  {
    ContextErrorDiscrepancy();
    var r1 := GenerateChatResponse(Intended, api, TURBO_16K, 1, true, DEFAULT_TEMPERATURE);
    assert r1 == Chat(Success("answer"), [Call(TURBO_16K, 1, DEFAULT_TEMPERATURE)], []);
    var r2 := GenerateChatResponse(Intended, api, TURBO, 1, true, DEFAULT_TEMPERATURE);
    assert r2 == Chat(Success("answer"), [Call(TURBO, 1, DEFAULT_TEMPERATURE)] + r1.calls, []);
  }

  /**
   * As written, an exchange never leaves the caller's model, and it stays
   * within the single-model budget: one call per attempt left, or one call
   * when none is left.
   */
  lemma {:induction false} AsWrittenKeepsModel(api: (string, nat) -> Reply, model: string, attempt: nat, smart: bool, temperature: real)
    ensures var calls := GenerateChatResponse(AsWritten, api, model, attempt, smart, temperature).calls;
            && (forall i :: 0 <= i < |calls| ==> calls[i].model == model)
            && |calls| <= (if attempt <= MAX_ATTEMPTS then MAX_ATTEMPTS - attempt + 1 else 1)
    decreases if attempt <= MAX_ATTEMPTS then MAX_ATTEMPTS - attempt else 0
  {
    var c := GenerateChatResponse(AsWritten, api, model, attempt, smart, temperature);
    if api(model, attempt).Err? && NextCall(AsWritten, api(model, attempt).error, model, attempt, smart).Go? {
      var e := api(model, attempt).error;
      var n := NextCall(AsWritten, e, model, attempt, smart);
      AsWrittenNeverEscalates(e, model, smart);
      assert n.model == model && n.attempt == attempt + 1 <= MAX_ATTEMPTS;
      var rest := GenerateChatResponse(AsWritten, api, model, n.attempt, true, DEFAULT_TEMPERATURE);
      AsWrittenKeepsModel(api, model, n.attempt, true, DEFAULT_TEMPERATURE);
      assert c.calls == [Call(model, attempt, temperature)] + rest.calls;
    } else {
      assert c.calls == [Call(model, attempt, temperature)];
    }
  }

  /**
   * The discrepancy over a whole exchange: a context-length bad request on
   * gpt-3.5-turbo with smart context on is raised after one call as written,
   * while the intended handlers go on to the 16k model at the same attempt.
   */
  lemma ContextErrorExchange(api: (string, nat) -> Reply, temperature: real)
    requires api(TURBO, 0) == Err(CONTEXT_ERROR)
    requires api(TURBO_16K, 0) == Ok("answer")
    ensures GenerateChatResponse(AsWritten, api, TURBO, 0, true, temperature) ==
            Chat(Failure(CONTEXT_ERROR), [Call(TURBO, 0, temperature)], [])
    ensures GenerateChatResponse(Intended, api, TURBO, 0, true, temperature) ==
            Chat(Success("answer"), [Call(TURBO, 0, temperature), Call(TURBO_16K, 0, DEFAULT_TEMPERATURE)], [])
  {
    ContextErrorDiscrepancy();
    var r := GenerateChatResponse(Intended, api, TURBO_16K, 0, true, DEFAULT_TEMPERATURE);
    assert r == Chat(Success("answer"), [Call(TURBO_16K, 0, DEFAULT_TEMPERATURE)], []);
  }
}
