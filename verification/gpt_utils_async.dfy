/**
 * squidtools/gpt_utils_async.py: `generate_chat_response`, which retries
 * transient API errors with exponential back-off, and `json_prompt`, which
 * re-asks until the answer decodes as JSON and passes the schema check,
 * keeping the best-scoring answer so far.
 */
module GptUtilsAsync {
  import opened Wrappers
  import opened Text
  import opened Json
  import opened Backoff

  // ---------------------------------------------------------------------------
  // generate_chat_response

  /** The classes the first handler retries unconditionally. */
  predicate Transient(k: ErrorKind) {
    k == InternalServer || k == ApiTimeout || k == UnprocessableEntity || k == RateLimit
  }

  /** With openai >= 1 every client error except `NotApi` is an `openai.APIError`. */
  predicate IsApiError(k: ErrorKind) {
    k != NotApi
  }

  /** The errors `generate_chat_response` retries (while attempts remain): transient ones, and API errors whose text says "bad gateway". */
  predicate Retryable(e: ApiError) {
    Transient(e.kind) || (IsApiError(e.kind) && BadGateway(e))
  }

  /** The reply at attempt `a` was an error that is retried while attempts remain. */
  predicate RetryableAt(api: (string, nat) -> Reply, model: string, a: nat) {
    api(model, a).Err? && Retryable(api(model, a).error)
  }

  /**
   * `generate_chat_response(messages, model, attempt)`, where `api(m, a)` is
   * the reply to the call made with model `m` at attempt `a`: from attempt
   * 0 at most `MAX_ATTEMPTS + 1` calls, one sleep between each two.
   */
  function GenerateChatResponse(api: (string, nat) -> Reply, model: string, attempt: nat): (c: Chat)
    ensures 1 <= |c.calls| && |c.sleeps| == |c.calls| - 1
    ensures attempt <= MAX_ATTEMPTS ==> |c.calls| <= MAX_ATTEMPTS - attempt + 1
    ensures attempt > MAX_ATTEMPTS ==> |c.calls| == 1
    decreases if attempt <= MAX_ATTEMPTS then MAX_ATTEMPTS - attempt else 0
  {
    var call := Call(model, attempt, DEFAULT_TEMPERATURE);
    match api(model, attempt)
    case Ok(text) => Chat(Success(text), [call], [])
    case Err(e) =>
      if !Retryable(e) || attempt + 1 > MAX_ATTEMPTS then Chat(Failure(e), [call], [])
      else
        var rest := GenerateChatResponse(api, model, attempt + 1);
        Chat(rest.result, [call] + rest.calls, [SleepSeconds(attempt + 1)] + rest.sleeps)
  }

  /** The `k`-th call is made with the same model at attempt `attempt + k`. */
  lemma {:induction false} ChatCalls(api: (string, nat) -> Reply, model: string, attempt: nat)
    ensures var c := GenerateChatResponse(api, model, attempt);
            forall i :: 0 <= i < |c.calls| ==> c.calls[i] == Call(model, attempt + i, DEFAULT_TEMPERATURE)
    decreases if attempt <= MAX_ATTEMPTS then MAX_ATTEMPTS - attempt else 0
  {
    var c := GenerateChatResponse(api, model, attempt);
    var call := Call(model, attempt, DEFAULT_TEMPERATURE);
    if RetryableAt(api, model, attempt) && attempt + 1 <= MAX_ATTEMPTS {
      ChatCalls(api, model, attempt + 1);
      var rest := GenerateChatResponse(api, model, attempt + 1);
      assert c.calls == [call] + rest.calls;
      forall i | 1 <= i < |c.calls|
        ensures c.calls[i] == Call(model, attempt + i, DEFAULT_TEMPERATURE)
      {
        assert c.calls[i] == rest.calls[i - 1];
      }
    } else {
      assert c.calls == [call];
    }
  }

  /** Before the `k`-th retry the runner slept 2^(attempt + k + 2) seconds: 2^(a + 1) for the incremented attempt `a`. */
  lemma {:induction false} ChatSleeps(api: (string, nat) -> Reply, model: string, attempt: nat)
    ensures var c := GenerateChatResponse(api, model, attempt);
            forall i :: 0 <= i < |c.sleeps| ==> c.sleeps[i] == SleepSeconds(attempt + i + 1)
    decreases if attempt <= MAX_ATTEMPTS then MAX_ATTEMPTS - attempt else 0
  {
    var c := GenerateChatResponse(api, model, attempt);
    if RetryableAt(api, model, attempt) && attempt + 1 <= MAX_ATTEMPTS {
      ChatSleeps(api, model, attempt + 1);
      var rest := GenerateChatResponse(api, model, attempt + 1);
      assert c.sleeps == [SleepSeconds(attempt + 1)] + rest.sleeps;
      forall i | 1 <= i < |c.sleeps|
        ensures c.sleeps[i] == SleepSeconds(attempt + i + 1)
      {
        assert c.sleeps[i] == rest.sleeps[i - 1];
      }
    } else {
      assert c.sleeps == [];
    }
  }

  /**
   * How the exchange ends: every call but the last failed with a retryable
   * error; the result is the last call's reply, and a failure is either not
   * retryable or came with no attempts left.
   */
  lemma {:induction false} ChatOutcome(api: (string, nat) -> Reply, model: string, attempt: nat)
    ensures var c := GenerateChatResponse(api, model, attempt);
            forall a :: attempt <= a < attempt + |c.calls| - 1 ==> RetryableAt(api, model, a)
    ensures var c := GenerateChatResponse(api, model, attempt);
            c.result == Returned(api(model, attempt + |c.calls| - 1))
    ensures var c := GenerateChatResponse(api, model, attempt);
            c.result.Failure? ==> !Retryable(c.result.error) || attempt + |c.calls| > MAX_ATTEMPTS
    decreases if attempt <= MAX_ATTEMPTS then MAX_ATTEMPTS - attempt else 0
  {
    var c := GenerateChatResponse(api, model, attempt);
    if RetryableAt(api, model, attempt) && attempt + 1 <= MAX_ATTEMPTS {
      ChatOutcome(api, model, attempt + 1);
      var rest := GenerateChatResponse(api, model, attempt + 1);
      assert |c.calls| == |rest.calls| + 1 && c.result == rest.result;
    } else {
      assert |c.calls| == 1 && c.result == Returned(api(model, attempt));
    }
  }

  /** From the default attempt 0: at most six calls, and the sleeps follow 4, 8, 16, 32, 64 seconds. */
  lemma DefaultSchedule(api: (string, nat) -> Reply, model: string)
    ensures |GenerateChatResponse(api, model, 0).calls| <= MAX_ATTEMPTS + 1
    ensures GenerateChatResponse(api, model, 0).sleeps <= [4, 8, 16, 32, 64]
  {
    var c := GenerateChatResponse(api, model, 0);
    Schedule();
    ChatSleeps(api, model, 0);
    assert |c.sleeps| <= 5;
    forall i | 0 <= i < |c.sleeps|
      ensures c.sleeps[i] == [4, 8, 16, 32, 64][i]
    {
      assert c.sleeps[i] == SleepSeconds(i + 1);
    }
  }

  /** A reply that answers, or fails in a way that is not retried, ends the exchange at once. */
  lemma NoRetry(api: (string, nat) -> Reply, model: string, attempt: nat)
    requires api(model, attempt).Ok? || !Retryable(api(model, attempt).error)
    ensures GenerateChatResponse(api, model, attempt) ==
            Chat(Returned(api(model, attempt)), [Call(model, attempt, DEFAULT_TEMPERATURE)], [])
  {
  }

  /** An API that keeps failing transiently is called six times, then its last error is raised. */
  lemma AlwaysTransient(api: (string, nat) -> Reply, model: string, e: ApiError)
    requires Transient(e.kind)
    requires forall a :: api(model, a) == Err(e)
    ensures GenerateChatResponse(api, model, 0).result == Failure(e)
    ensures |GenerateChatResponse(api, model, 0).calls| == MAX_ATTEMPTS + 1
  {
    var c := GenerateChatResponse(api, model, 0);
    ChatOutcome(api, model, 0);
  }

  // ---------------------------------------------------------------------------
  // json_prompt

  const FENCE: string := "```"
  const JSON_FENCE: string := "```json"

  /** `response_txt.replace('```json', '').replace('```', '').strip()` */
  function StripFences(text: string): string {
    Strip(ReplaceAll(ReplaceAll(text, JSON_FENCE, ""), FENCE, ""))
  }

  /** An answer wrapped in a json code fence is read as the fenced text, stripped. */
  lemma FencedAnswer(body: string)
    requires '`' !in body
    ensures StripFences(JSON_FENCE + body + FENCE) == Strip(body)
  {
    var s := JSON_FENCE + body + FENCE;
    assert JSON_FENCE[0] == '`' && FENCE[0] == '`';
    assert s == JSON_FENCE + (body + FENCE);
    ReplaceFront(body + FENCE, JSON_FENCE, "");
    ReplaceAfter(body, FENCE, JSON_FENCE, "");
    assert ReplaceAll(FENCE, JSON_FENCE, "") == FENCE;
    var r1 := ReplaceAll(s, JSON_FENCE, "");
    assert r1 == body + FENCE;
    ReplaceAfter(body, FENCE, FENCE, "");
    ReplaceFront("", FENCE, "");
    assert FENCE + "" == FENCE;
    var r2 := ReplaceAll(r1, FENCE, "");
    assert r2 == body;
  }

  /** An answer without backticks is only stripped. */
  lemma UnfencedAnswer(text: string)
    requires '`' !in text
    ensures StripFences(text) == Strip(text)
  {
    ReplaceAbsent(text, JSON_FENCE, "");
    ReplaceAbsent(text, FENCE, "");
  }

  /** What `method(prompt_text, input, model)` returns: the answer text and its cost. */
  datatype Answer = Answer(text: string, cost: real)

  /** The `best` pair: the best schema score so far and the answer that earned it (`(0, None)` initially). */
  datatype Best = Best(score: real, answer: Option<Value>)

  const NO_BEST := Best(0.0, None)

  /** `if check > best[0]: best = (check, serialized)`, over a run of scored answers in order. */
  function FoldBest(best: Best, scored: seq<(real, Value)>): Best
    decreases |scored|
  {
    if scored == [] then best
    else
      var b := if scored[0].0 > best.score then Best(scored[0].0, Some(scored[0].1)) else best;
      FoldBest(b, scored[1..])
  }

  /** The exceptions `json_prompt` lets escape. */
  datatype PromptError =
    | CallFailed(error: ApiError)   // raised by `method`
    | DecodeError                   // json.decoder.JSONDecodeError on the last attempt
    | SchemaValidationError

  /** A `(serialized, cost)` pair, or the bare best-so-far value returned at the attempt ceiling. */
  datatype Prompted = Serialized(value: Value, cost: real) | BestSoFar(value: Value)

  /** What one attempt decides: to stop with a result, or to ask again with an updated best-so-far after scoring the answer (or not). */
  datatype Step = Done(result: Result<Prompted, PromptError>) | Again(best: Best, scored: seq<(real, Value)>)

  /** `scored` is an answer with the score the schema gave it, short of full marks. */
  predicate ScoredShort(schema: Option<Value -> real>, scored: (real, Value)) {
    schema.Some? && scored.0 == schema.value(scored.1) && scored.0 != 1.0
  }

  /** Every answer of `scored` is scored short of full marks. */
  predicate AllScoredShort(schema: Option<Value -> real>, scored: seq<(real, Value)>) {
    scored == [] || (ScoredShort(schema, scored[0]) && AllScoredShort(schema, scored[1..]))
  }

  lemma {:induction false} AllScoredShortConcat(schema: Option<Value -> real>, a: seq<(real, Value)>, b: seq<(real, Value)>)
    requires AllScoredShort(schema, a) && AllScoredShort(schema, b)
    ensures AllScoredShort(schema, a + b)
  {
    if a != [] {
      assert (a + b)[0] == a[0] && (a + b)[1..] == a[1..] + b;
      AllScoredShortConcat(schema, a[1..], b);
    } else {
      assert a + b == b;
    }
  }

  /**
   * One pass through the body of `json_prompt`, for the reply `reply` of
   * `method` at attempt `attempt`. It asks again only while attempts remain,
   * and then the best-so-far is replaced only by an answer scored short of
   * full marks and strictly above it.
   */
  function Judge(reply: Result<Answer, ApiError>, decode: string -> Option<Value>,
                 schema: Option<Value -> real>, attempt: nat, best: Best): (s: Step)
    ensures s.Again? ==> attempt < MAX_ATTEMPTS && s.best == FoldBest(best, s.scored) && |s.scored| <= 1
    ensures s.Again? ==> AllScoredShort(schema, s.scored)
  {
    match reply
    case Failure(e) => Done(Failure(CallFailed(e)))
    case Success(a) =>
      match decode(StripFences(a.text))
      case None =>
        if attempt < MAX_ATTEMPTS then Again(best, []) else Done(Failure(DecodeError))
      case Some(v) =>
        if schema.Some? && schema.value(v) != 1.0 then
          var check := schema.value(v);
          if attempt < MAX_ATTEMPTS then
            var best' := if check > best.score then Best(check, Some(v)) else best;
            assert FoldBest(best, [(check, v)]) == FoldBest(best', []);
            Again(best', [(check, v)])
          else if best.answer.Some? && Truthy(best.answer.value) then Done(Success(BestSoFar(best.answer.value)))
          else Done(Failure(SchemaValidationError))
        else Done(Success(Serialized(v, a.cost)))
  }

  /**
   * How one pass ends the exchange: an exception from `method` escapes; the
   * decode error escapes exactly when an undecodable answer comes at the
   * ceiling; a decoded answer the schema (if any) gives full marks is
   * returned with its cost; at the ceiling the best-so-far is returned bare
   * when it is truthy, else SchemaValidationError is raised.
   */
  lemma JudgeOutcome(reply: Result<Answer, ApiError>, decode: string -> Option<Value>,
                     schema: Option<Value -> real>, attempt: nat, best: Best)
    ensures var s := Judge(reply, decode, schema, attempt, best);
            s == Done(Failure(DecodeError)) <==>
                attempt >= MAX_ATTEMPTS && reply.Success? && decode(StripFences(reply.value.text)).None?
    ensures var s := Judge(reply, decode, schema, attempt, best);
            s.Done? && s.result.Failure? && s.result.error.CallFailed? ==> reply == Failure(s.result.error.error)
    ensures var s := Judge(reply, decode, schema, attempt, best);
            reply.Failure? ==> s == Done(Failure(CallFailed(reply.error)))
    ensures var s := Judge(reply, decode, schema, attempt, best);
            s.Done? && s.result.Success? && s.result.value.Serialized? ==>
                reply.Success? && decode(StripFences(reply.value.text)) == Some(s.result.value.value) &&
                s.result.value.cost == reply.value.cost &&
                (schema.None? || schema.value(s.result.value.value) == 1.0)
    ensures var s := Judge(reply, decode, schema, attempt, best);
            s.Done? && s.result.Success? && s.result.value.BestSoFar? ==>
                attempt >= MAX_ATTEMPTS && best.answer == Some(s.result.value.value) && Truthy(s.result.value.value)
    ensures var s := Judge(reply, decode, schema, attempt, best);
            s == Done(Failure(SchemaValidationError)) ==>
                attempt >= MAX_ATTEMPTS && (best.answer.None? || !Truthy(best.answer.value))
  {
  }

  /**
   * One `json_prompt` exchange: its outcome, how many times `method` was
   * called and the attempt number of the last call, and the answers that
   * failed the schema check and were retried after, with their scores.
   */
  datatype PromptRun = PromptRun(result: Result<Prompted, PromptError>, asks: nat, last: nat, retried: seq<(real, Value)>)

  /**
   * `json_prompt(prompt_text, input, method, model, schema, attempt, best)`,
   * with `ask(a)` the answer (or exception) of `method` at attempt `a`,
   * `decode` standing for `json.loads` (None: JSONDecodeError) and `schema`
   * for the optional scoring function: one attempt after another until one
   * is done.
   */
  function JsonPrompt(ask: nat -> Result<Answer, ApiError>, decode: string -> Option<Value>,
                      schema: Option<Value -> real>, attempt: nat, best: Best): (run: PromptRun)
    ensures run.asks >= 1 && run.last == attempt + run.asks - 1 && |run.retried| < run.asks
    ensures attempt <= MAX_ATTEMPTS ==> run.asks <= MAX_ATTEMPTS - attempt + 1
    decreases if attempt <= MAX_ATTEMPTS then MAX_ATTEMPTS - attempt else 0
  {
    match Judge(ask(attempt), decode, schema, attempt, best)
    case Done(r) => PromptRun(r, 1, attempt, [])
    case Again(best', scored) =>
      var rest := JsonPrompt(ask, decode, schema, attempt + 1, best');
      PromptRun(rest.result, rest.asks + 1, rest.last, scored + rest.retried)
  }

  lemma {:induction false} FoldBestConcat(best: Best, a: seq<(real, Value)>, b: seq<(real, Value)>)
    ensures FoldBest(best, a + b) == FoldBest(FoldBest(best, a), b)
    decreases |a|
  {
    if a != [] {
      var b0 := if a[0].0 > best.score then Best(a[0].0, Some(a[0].1)) else best;
      assert (a + b)[0] == a[0] && (a + b)[1..] == a[1..] + b;
      FoldBestConcat(b0, a[1..], b);
    } else {
      assert a + b == b;
    }
  }

  /**
   * Every earlier attempt asked again, and the last one decided the result,
   * judged with the best-so-far accumulated over the answers retried before it.
   */
  lemma {:induction false} PromptTrace(ask: nat -> Result<Answer, ApiError>, decode: string -> Option<Value>,
                                       schema: Option<Value -> real>, attempt: nat, best: Best)
    ensures var run := JsonPrompt(ask, decode, schema, attempt, best);
            Judge(ask(run.last), decode, schema, run.last, FoldBest(best, run.retried)) == Done(run.result)
    decreases if attempt <= MAX_ATTEMPTS then MAX_ATTEMPTS - attempt else 0
  {
    var step := Judge(ask(attempt), decode, schema, attempt, best);
    if step.Again? {
      PromptTrace(ask, decode, schema, attempt + 1, step.best);
      var rest := JsonPrompt(ask, decode, schema, attempt + 1, step.best);
      FoldBestConcat(best, step.scored, rest.retried);
    }
  }

  /** The answers retried are the ones the schema scored short of full marks, with those scores. */
  lemma {:induction false} RetriedScored(ask: nat -> Result<Answer, ApiError>, decode: string -> Option<Value>,
                                         schema: Option<Value -> real>, attempt: nat, best: Best)
    ensures AllScoredShort(schema, JsonPrompt(ask, decode, schema, attempt, best).retried)
    decreases if attempt <= MAX_ATTEMPTS then MAX_ATTEMPTS - attempt else 0
  {
    var run := JsonPrompt(ask, decode, schema, attempt, best);
    var step := Judge(ask(attempt), decode, schema, attempt, best);
    if step.Again? {
      RetriedScored(ask, decode, schema, attempt + 1, step.best);
      var rest := JsonPrompt(ask, decode, schema, attempt + 1, step.best);
      assert run.retried == step.scored + rest.retried;
      AllScoredShortConcat(schema, step.scored, rest.retried);
    } else {
      assert run.retried == [];
    }
  }

  /** Called with its defaults, `json_prompt` asks at most five times. */
  lemma AtMostFiveAsks(ask: nat -> Result<Answer, ApiError>, decode: string -> Option<Value>, schema: Option<Value -> real>)
    ensures JsonPrompt(ask, decode, schema, 1, NO_BEST).asks <= MAX_ATTEMPTS
    ensures |JsonPrompt(ask, decode, schema, 1, NO_BEST).retried| < MAX_ATTEMPTS
  {
  }

  /**
   * The best-so-far is the first answer with the highest score, provided that
   * score beats the starting one; ties keep the earlier answer.
   */
  lemma {:induction false} FoldBestIsFirstMax(best: Best, scored: seq<(real, Value)>)
    ensures var r := FoldBest(best, scored);
            r.score >= best.score && forall i :: 0 <= i < |scored| ==> scored[i].0 <= r.score
    ensures var r := FoldBest(best, scored);
            r == best ||
            exists i :: 0 <= i < |scored| && r == Best(scored[i].0, Some(scored[i].1)) &&
                        best.score < r.score && forall j :: 0 <= j < i ==> scored[j].0 < r.score
    decreases |scored|
  {
    if scored != [] {
      var b := if scored[0].0 > best.score then Best(scored[0].0, Some(scored[0].1)) else best;
      var rest := scored[1..];
      FoldBestIsFirstMax(b, rest);
      var r := FoldBest(best, scored);
      assert r == FoldBest(b, rest);
      forall i | 0 <= i < |scored|
        ensures scored[i].0 <= r.score
      {
        if i > 0 { assert scored[i] == rest[i - 1]; }
      }
      if r != b {
        var i :| 0 <= i < |rest| && r == Best(rest[i].0, Some(rest[i].1)) &&
                 b.score < r.score && forall j :: 0 <= j < i ==> rest[j].0 < r.score;
        assert scored[i + 1] == rest[i];
        assert forall j :: 1 <= j < i + 1 ==> scored[j] == rest[j - 1];
      } else if r != best {
        assert r == Best(scored[0].0, Some(scored[0].1));
      }
    }
  }

  /** A best-so-far that holds an answer holds one that scored above zero. */
  lemma {:induction false} StoredScoresPositive(best: Best, scored: seq<(real, Value)>)
    requires best.score >= 0.0 && (best.answer.Some? ==> best.score > 0.0)
    ensures FoldBest(best, scored).answer.Some? ==> FoldBest(best, scored).score > 0.0
    decreases |scored|
  {
    if scored != [] {
      var b := if scored[0].0 > best.score then Best(scored[0].0, Some(scored[0].1)) else best;
      StoredScoresPositive(b, scored[1..]);
    }
  }

  /**
   * At the attempt ceiling the last answer is not a candidate: however well
   * it scores, short of 1, the earlier best is returned.
   */
  lemma LastAnswerNotCandidate(ask: nat -> Result<Answer, ApiError>, decode: string -> Option<Value>,
                               f: Value -> real, best: Best, v: Value)
    requires ask(MAX_ATTEMPTS).Success? && decode(StripFences(ask(MAX_ATTEMPTS).value.text)) == Some(v)
    requires f(v) != 1.0 && f(v) > best.score
    requires best.answer.Some? && Truthy(best.answer.value)
    ensures JsonPrompt(ask, decode, Some(f), MAX_ATTEMPTS, best).result == Success(BestSoFar(best.answer.value))
  {
  }

  /**
   * A best-so-far that is missing or falsy (an empty dict or list, 0, "",
   * false) is not returned: when the answer at the ceiling fails the schema,
   * SchemaValidationError is raised.
   */
  lemma FalsyBestRaises(ask: nat -> Result<Answer, ApiError>, decode: string -> Option<Value>,
                        f: Value -> real, best: Best, v: Value)
    requires ask(MAX_ATTEMPTS).Success? && decode(StripFences(ask(MAX_ATTEMPTS).value.text)) == Some(v) && f(v) != 1.0
    requires best.answer.None? || !Truthy(best.answer.value)
    ensures JsonPrompt(ask, decode, Some(f), MAX_ATTEMPTS, best).result == Failure(SchemaValidationError)
  {
  }
}
