/** Option and Result, used wherever the program returns a nil error or a missing value. */
module Common {

  datatype Option<+T> = None | Some(value: T)

  datatype Result<+T> = Ok(value: T) | Err(message: string)
}
