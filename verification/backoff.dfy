/**
 * What the three `generate_chat_response` variants share: the attempt
 * ceiling, the exponential sleep schedule, and an abstract API whose reply
 * to each call is an oracle.
 */
module Backoff {
  import opened Wrappers
  import opened Text

  /** `MAX_ATTEMPTS` in all three files. */
  const MAX_ATTEMPTS: nat := 5
  /** The temperature every call that does not say otherwise is made with. */
  const DEFAULT_TEMPERATURE: real := 0.5

  const TURBO: string := "gpt-3.5-turbo"
  const TURBO_16K: string := "gpt-3.5-turbo-16k"

  function Pow2(n: nat): (r: nat)
    ensures r >= 1
  {
    if n == 0 then 1 else 2 * Pow2(n - 1)
  }

  /** `pow(2, attempt + 1)`, slept after the attempt counter has been incremented to `attempt`. */
  function SleepSeconds(attempt: nat): nat {
    Pow2(attempt + 1)
  }

  /** Each of `k` more attempts doubles the sleep. */
  lemma {:induction false} SleepScales(attempt: nat, k: nat)
    ensures SleepSeconds(attempt + k) == Pow2(k) * SleepSeconds(attempt)
  {
    if k > 0 {
      SleepScales(attempt, k - 1);
      assert SleepSeconds(attempt + k) == 2 * SleepSeconds(attempt + k - 1);
    }
  }

  /** The exception classes the handlers tell apart. */
  datatype ErrorKind =
    | InternalServer      // openai.InternalServerError
    | ApiTimeout          // openai.APITimeoutError
    | UnprocessableEntity // openai.UnprocessableEntityError
    | RateLimit           // openai.RateLimitError
    | ApiConnection       // openai.APIConnectionError
    | BadRequest          // openai.BadRequestError
    | ServiceUnavailable  // openai.error.ServiceUnavailableError (openai < 1)
    | OtherApi            // any other openai.APIError
    | NotApi              // an exception that is not an API error

  /** An exception raised by the API client: its class and `str(e)`. */
  datatype ApiError = ApiError(kind: ErrorKind, message: string)

  /** The API's reply to one call. */
  datatype Reply = Ok(text: string) | Err(error: ApiError)

  /** The arguments of one call to the API. */
  datatype Call = Call(model: string, attempt: nat, temperature: real)

  /** What `generate_chat_response` did: its result or the exception it raised, the calls made and the sleeps taken. */
  datatype Chat = Chat(result: Result<string, ApiError>, calls: seq<Call>, sleeps: seq<nat>)

  /** The reply to a call, as `generate_chat_response` hands it back. */
  function Returned(r: Reply): Result<string, ApiError> {
    match r
    case Ok(text) => Success(text)
    case Err(e) => Failure(e)
  }

  /** `"bad gateway" in str(e).lower()` */
  predicate BadGateway(e: ApiError) {
    Contains(Lower(e.message), "bad gateway")
  }

  /** From attempt 0 the sleeps are 4, 8, 16, 32 and 64 seconds. */
  lemma Schedule()
    ensures SleepSeconds(1) == 4 && SleepSeconds(2) == 8 && SleepSeconds(3) == 16
    ensures SleepSeconds(4) == 32 && SleepSeconds(MAX_ATTEMPTS) == 64
  {
    assert Pow2(2) == 4;
    assert Pow2(4) == 16;
  }
}
