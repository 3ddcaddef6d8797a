/** Small failure-carrying datatypes shared by every module of the model. */
module Wrappers {

  /** An optional value: Go's nil pointer / missing map entry / failed lookup. */
  datatype Option<+T> = None | Some(value: T)

  /** A value or an error message, standing for Go's `(T, error)` return pair. */
  datatype Result<+T> = Ok(value: T) | Err(msg: string)

  /** The answer an external system (cluster API, SQL, DNS) gives to one call.
      The model never computes it: it is always an input. */
  datatype Outcome = Succeeds | Fails(msg: string)

  /** The error returned by an operation that returns only `error`. */
  type Error = Option<string>
}
