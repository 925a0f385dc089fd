/** Small value wrappers shared by every screen model. */
module Wrappers {

  /** A value that may be absent (`null` / `undefined` in the app). */
  datatype Option<T> = None | Some(value: T)

  /** What a backend call settled with: the payload its promise resolved
      with, or the `message` of the error it rejected with. Every service
      call of the app is modelled as an input of this type. */
  datatype Response<T> = Ok(payload: T) | Failed(message: string)

  /** A string the app tests for truthiness: `null`, `undefined` and `""` are all falsy. */
  predicate Truthy(s: Option<string>)
  {
    s.Some? && s.value != ""
  }
}
