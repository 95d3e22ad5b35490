// The shared error type and its two classifications
// (crates/inference-core/src/error.rs).  Message texts are not modelled.
module Errors {
  import opened Wrappers

  datatype InferenceError =
    | RateLimited(retryAfter: Option<nat>)
    | CircuitOpen(openedAtUnixMs: nat, retryAtUnixMs: nat)
    | ContentFiltered
    | ContextLengthExceeded
    | BadRequest
    | Unauthorized
    | Forbidden
    | Backpressure
    | BudgetExceeded
    | NetworkError
    | ServerError
    | Timeout
    | CudaContextPoisoned
    | Unsupported
    | UnsupportedAudioFormat
    | RealtimeClosed
    | Internal

  predicate IsRetryable(e: InferenceError) {
    e.RateLimited? || e.ServerError? || e.Timeout? || e.NetworkError?
  }

  predicate CountsAsCircuitFailure(e: InferenceError) {
    e.ServerError? || e.Timeout? || e.NetworkError?
  }

  // What is held against the circuit is always retried; of what is retried, only
  // a rate limit is not held against it.
  lemma ErrorClasses(e: InferenceError)
    ensures CountsAsCircuitFailure(e) <==> IsRetryable(e) && !e.RateLimited?
    ensures IsRetryable(e) <==> e.RateLimited? || e.ServerError? || e.Timeout? || e.NetworkError?
  {
  }
}
