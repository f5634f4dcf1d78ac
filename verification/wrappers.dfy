/** Result types shared by the model: an optional value, and the outcome of a
    call into code that may throw (JSON.parse, the hierarchical renderer, the
    rasteriser, the PDF library). */
module Wrappers {

  datatype Option<+T> = None | Some(value: T)

  /** Either the value a call returned, or the message of the error it threw. */
  datatype Outcome<+T> = Ok(value: T) | Thrown(message: string)
}
