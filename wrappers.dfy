// Outcomes of operations that can fail.  Every fatal branch of the engine
// goes through its logging helper, which records the message and throws; a
// `Fatal` error models that throw.  `Undefined` marks the few places where
// the C++ code has undefined behaviour (a null pointer dereferenced, say);
// `Thrown` is a standard-library exception thrown without logging.
module Wrappers {

  datatype Option<T> = None | Some(value: T)

  datatype Error = Fatal(msg: string) | Undefined(what: string) | Thrown(what: string)

  datatype Result<T> = Ok(value: T) | Err(error: Error)

  /** The result of an operation that returns nothing on success. */
  datatype Outcome = Done | Fail(error: Error)
}
