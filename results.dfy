/** Optional values and success-or-error values, used where the program
    raises an exception or stores None. */
module Results {

  datatype Option<+T> = None | Some(value: T)

  datatype Result<+T, +E> = Ok(value: T) | Err(error: E)
}
