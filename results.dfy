/** Success/failure wrappers used wherever the source either returns a value
    or throws, or where a remote call may fail. */
module Results {

  datatype Option<+T> = None | Some(value: T)

  datatype Result<+T, +E> = Ok(value: T) | Err(error: E)
}
