/** The ways the cover-image pipeline can fail, and a result that carries them. */
module Outcomes {

  datatype Error =
    | EmptySample      // numpy's min/max of an empty sample raise ValueError
    | ConstantSample   // every sample equal: the min-max rescale has no range
    | ColorOutOfRange  // `get_color`: "can only convert values in [0, 1] to colors"
    | UnknownShape     // not one of the shape choices
    | UnknownPattern   // not one of the pattern choices

  datatype Result<T> = Ok(value: T) | Err(error: Error)
}
