/** Optional values, and the outcome of a call to the generative-AI service:
    a parsed value, or a failure (network error, refusal, malformed JSON). */
module Wrappers {

  datatype Option<T> = None | Some(value: T)

  datatype AiResult<T> = Ok(value: T) | Failed
}
