/** Result types of the validation code: `Result` and `Outcome` stand for a
    check that either passes or reports the error sys.exit is called with,
    and `Option` for GetVertexById's None. The instantiation code keeps the
    source's 0 for "no vertex found". */
module Wrappers {

  datatype Option<+T> = None | Some(value: T)

  datatype Result<+R, +E> = Success(value: R) | Failure(error: E)

  /** Success with no value, or a failure. */
  datatype Outcome<+E> = Pass | Fail(error: E)
}
