/** Option and Result values for the lookups that may find nothing and the
    operations that raise in the original program. */
module Wrappers {

  datatype Option<T> = None | Some(value: T)

  datatype Result<T, E> = Ok(value: T) | Err(error: E)
}
