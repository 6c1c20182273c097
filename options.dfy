/** Optional values and error results shared by the modules of this model. */
module Options {

  /** A value that may be missing: a trait with no nested `type`, a
      specialisation that fails to instantiate, an overload that is not viable. */
  datatype Option<+T> = None | Some(value: T)

  /** The errors a checked operation can raise. */
  datatype Error = OutOfRange

  /** Either the value an operation returns or the exception it throws. */
  datatype Result<+T> = Ok(value: T) | Err(error: Error)
}
