// Option and Result: the two wrappers the rest of the model uses for Go's
// optional (nil) values and (value, error) pairs. An error is modelled by its message.
module Wrappers {
  datatype Option<T> = None | Some(value: T)

  datatype Result<T> = Ok(value: T) | Err(error: string)

  /** What an UnmarshalText method leaves in its receiver, and the error it
      returns. */
  datatype Unmarshaled<T> = Unmarshaled(value: T, err: Option<string>)
}
