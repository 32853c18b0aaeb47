/**
 * The error hierarchy of src/utils/errors.ts and the two classifiers over it.
 *
 * `GarminAPIError` is the base class of `AuthenticationError` and
 * `RateLimitError`; `ValidationError` and `CacheError` extend `Error`
 * directly. `Thrown` is everything a `catch` may receive: one of those
 * classes, any other `Error`, or a value that is not an `Error` at all.
 */
module Errors {
  import opened Wrappers
  import opened Strings

  datatype Thrown =
    | GarminAPIError(code: string, message: string, statusCode: Option<int>, retryable: bool)
    | AuthenticationError(message: string)
    | RateLimitError(retryAfter: Option<int>)
    | ValidationError(message: string)
    | CacheError(message: string)
    | PlainError(message: string)
    | NotAnError

  /** `e instanceof Error`. */
  predicate IsError(e: Thrown) {
    !e.NotAnError?
  }

  /** `e instanceof GarminAPIError`: the base class and both of its subclasses. */
  predicate IsGarminAPIError(e: Thrown) {
    e.GarminAPIError? || e.AuthenticationError? || e.RateLimitError?
  }

  /** The `code` field of a `GarminAPIError`. */
  function Code(e: Thrown): string
    requires IsGarminAPIError(e)
  {
    match e
    case GarminAPIError(code, _, _, _) => code
    case AuthenticationError(_) => "AUTH_ERROR"
    case RateLimitError(_) => "RATE_LIMIT"
  }

  /** The `statusCode` field of a `GarminAPIError`. */
  function StatusCode(e: Thrown): Option<int>
    requires IsGarminAPIError(e)
  {
    match e
    case GarminAPIError(_, _, status, _) => status
    case AuthenticationError(_) => Some(401)
    case RateLimitError(_) => Some(429)
  }

  /** The `retryable` field of a `GarminAPIError`. */
  function Retryable(e: Thrown): bool
    requires IsGarminAPIError(e)
  {
    match e
    case GarminAPIError(_, _, _, retryable) => retryable
    case AuthenticationError(_) => false
    case RateLimitError(_) => true
  }

  /** The `message` of an `Error`. */
  function Message(e: Thrown): string
    requires IsError(e)
  {
    match e
    case GarminAPIError(_, message, _, _) => message
    case AuthenticationError(message) => message
    case RateLimitError(_) => "Rate limit exceeded"
    case ValidationError(message) => message
    case CacheError(message) => message
    case PlainError(message) => message
  }

  /** `new GarminAPIError(code, message, statusCode?, retryable = false)`. */
  function NewGarminAPIError(code: string, message: string, statusCode: Option<int> := None,
                             retryable: bool := false): (e: Thrown)
    ensures IsError(e) && IsGarminAPIError(e)
    ensures Code(e) == code && Message(e) == message
    ensures StatusCode(e) == statusCode && Retryable(e) == retryable
  {
    GarminAPIError(code, message, statusCode, retryable)
  }

  /** `new AuthenticationError(message = 'Authentication failed')`: code AUTH_ERROR, status 401, not retryable. */
  function NewAuthenticationError(message: string := "Authentication failed"): (e: Thrown)
    ensures IsError(e) && IsGarminAPIError(e)
    ensures Code(e) == "AUTH_ERROR" && StatusCode(e) == Some(401) && !Retryable(e)
    ensures Message(e) == message
  {
    AuthenticationError(message)
  }

  /** `new RateLimitError(retryAfter?)`: code RATE_LIMIT, status 429, retryable, fixed message. */
  function NewRateLimitError(retryAfter: Option<int> := None): (e: Thrown)
    ensures IsError(e) && IsGarminAPIError(e)
    ensures Code(e) == "RATE_LIMIT" && StatusCode(e) == Some(429) && Retryable(e)
    ensures Message(e) == "Rate limit exceeded"
    ensures e.RateLimitError? && e.retryAfter == retryAfter
  {
    RateLimitError(retryAfter)
  }

  /** `isFatalError`, written as the source's chain of `instanceof` tests. */
  predicate IsFatalError(e: Thrown) {
    if e.AuthenticationError? then true
    else if e.ValidationError? then true
    else if IsGarminAPIError(e) && !Retryable(e) then true
    else false
  }

  /** `isRetryableError`, written as the source's chain of tests. */
  predicate IsRetryableError(e: Thrown) {
    if e.RateLimitError? then true
    else if IsGarminAPIError(e) && Retryable(e) then true
    else if IsError(e) && Contains(Message(e), "ECONNRESET") then true
    else if IsError(e) && Contains(Message(e), "ETIMEDOUT") then true
    else false
  }

  /** The message names a dropped or timed-out connection. */
  predicate NamesConnectionFailure(e: Thrown)
    requires IsError(e)
  {
    Contains(Message(e), "ECONNRESET") || Contains(Message(e), "ETIMEDOUT")
  }

  /**
   * Fatal errors are exactly the validation errors and the API errors
   * (authentication errors included) that are not retryable.
   */
  lemma FatalErrorCharacterized(e: Thrown)
    ensures IsFatalError(e) <==> e.ValidationError? || (IsGarminAPIError(e) && !Retryable(e))
  {
  }

  /** A retryable API error, a cache error, a plain error and a non-Error are never fatal. */
  lemma NotFatal(e: Thrown)
    requires (IsGarminAPIError(e) && Retryable(e)) || e.CacheError? || e.PlainError? || e.NotAnError?
    ensures !IsFatalError(e)
  {
  }

  /**
   * Retryable errors are the API errors flagged retryable (rate-limit errors
   * included) and any error whose message names a connection failure.
   */
  lemma RetryableErrorCharacterized(e: Thrown)
    ensures IsRetryableError(e) <==>
      (IsGarminAPIError(e) && Retryable(e)) || (IsError(e) && NamesConnectionFailure(e))
  {
  }

  /** Outside the API errors, only a connection-failure message makes an error retryable. */
  lemma NonAPIRetryable(e: Thrown)
    requires !IsGarminAPIError(e)
    ensures IsRetryableError(e) <==> IsError(e) && NamesConnectionFailure(e)
  {
  }

  /**
   * An API error is fatal exactly when it is not retryable, unless its
   * message names a connection failure: then it is both.
   */
  lemma APIErrorFatalOrRetryable(e: Thrown)
    requires IsGarminAPIError(e)
    ensures IsFatalError(e) || IsRetryableError(e)
    ensures IsFatalError(e) && IsRetryableError(e) <==> !Retryable(e) && NamesConnectionFailure(e)
  {
  }

  /** A validation error whose message mentions ECONNRESET is classified both fatal and retryable. */
  lemma ValidationErrorCanBeBoth()
    ensures IsFatalError(ValidationError("read ECONNRESET")) && IsRetryableError(ValidationError("read ECONNRESET"))
  {
    ContainsWitness("read ECONNRESET", "ECONNRESET", 5);
  }
}
