/** Result types shared by the modules that model error returns. */
module Prelude {
  datatype Option<+T> = None | Some(value: T)

  datatype Result<+T> = Ok(value: T) | Err(error: Error)

  /** The error kinds that the modelled operations distinguish. */
  datatype Error = Invalid | NotFound | Unauthorized | Internal
}
