/** Failure-compatible wrappers shared by every module of the model. */
module Wrappers {

  /** A value that may be absent (Python's `None`). */
  datatype Option<+T> = None | Some(value: T)

  /** The outcome of an operation that may raise: `Ok(v)` or the error it raised. */
  datatype Result<+T, +E> = Ok(value: T) | Err(error: E)

  /** The three states of a key in a Python dict: absent, present with `None`, present with a value. */
  datatype Entry<+T> = Missing | Null | Given(value: T)

  /** `d.get(key)`: absent and `None` both read as `None`. */
  function Get<T>(e: Entry<T>): Option<T> {
    match e
    case Given(v) => Some(v)
    case _ => None
  }

  /** `d.get(key, default)`: only an absent key yields the default; a key present with `None` stays `None`. */
  function GetOr<T>(e: Entry<T>, default: T): Option<T> {
    match e
    case Missing => Some(default)
    case Null => None
    case Given(v) => Some(v)
  }
}
