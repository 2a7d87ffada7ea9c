/** Optional values and settled promises, shared by every module of the model. */
module Wrappers {

  /** A value that may be missing: JavaScript `null`/`undefined`, Python `None`. */
  datatype Option<+T> = None | Some(value: T)

  /**
   * How an awaited backend call settles. The model never performs the call:
   * the caller passes in the outcome the backend produced, so every proof
   * holds for both a fulfilled and a rejected promise.
   */
  datatype Settled<+T> = Resolved(value: T) | Rejected

  /** JavaScript truthiness of a `string | null`: present and not empty. */
  predicate TruthyString(s: Option<string>) {
    s.Some? && s.value != ""
  }
}
