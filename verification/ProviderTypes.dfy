/** Failure classification shared by the provider adapters. The diagnostic message of a
    `ProviderError` is not part of the model; its class, retry flag and disposition are. */
module ProviderTypes {
  datatype ErrorClass =
    | InvalidRequest
    | InvalidResponse
    | RateLimited
    | Unavailable
    | Timeout
    | Cancelled

  datatype Disposition = Known | OutcomeUnknown

  datatype ProviderError = ProviderError(kind: ErrorClass, retryable: bool, disposition: Disposition)

  /** Every malformed-response diagnosis: `invalid_stream` and its non-streaming twin. */
  const INVALID_RESPONSE := ProviderError(InvalidResponse, false, Known)

  /** The stream ended without a terminal message. */
  const STREAM_ENDED := ProviderError(Unavailable, true, OutcomeUnknown)

  /** `error_from_stream_kind`. */
  function StreamKindError(kind: string): ProviderError {
    if kind == "rate_limit_error" then
      ProviderError(RateLimited, true, OutcomeUnknown)
    else if kind == "timeout_error" then
      ProviderError(Timeout, true, OutcomeUnknown)
    else if kind in {"api_error", "overloaded_error"} then
      ProviderError(Unavailable, true, OutcomeUnknown)
    else if kind in {"authentication_error", "billing_error", "invalid_request_error",
                     "not_found_error", "permission_error", "request_too_large"} then
      ProviderError(InvalidRequest, false, OutcomeUnknown)
    else
      ProviderError(InvalidResponse, false, OutcomeUnknown)
  }
}
