/** Shared result types: the Python code signals failure by raising, the model by returning Err. */
module Common {

  datatype Option<+T> = None | Some(value: T)

  /** The exceptions the tool functions can raise on the paths the model covers. */
  datatype Error =
    | ConfigError(message: string)  // ValueError from getDevice when no device serial is configured
    | IndexError(message: string)   // a box_2d list with fewer than four entries
    | KeyError(key: string)         // the first element has no click_x / click_y entry

  datatype Result<+T> = Ok(value: T) | Err(error: Error)
}
