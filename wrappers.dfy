/** Option and Result values standing in for Python's None and for the
    exceptions that a loader lets escape to its caller, and the library
    functions every engine takes as a parameter. */
module Wrappers {

  datatype Option<+T> = None | Some(value: T)

  /** The exception a loader raises when a row or a token cannot be
      converted (float(), int(), tuple unpacking), when `float()` is given
      `None`, or when a container is empty. */
  datatype Error = ValueError | TypeError | IndexError

  datatype Result<+T> = Ok(value: T) | Fail(error: Error)

  /** `float(text)`; `None` is the ValueError it raises. */
  type FloatParser = string -> Option<real>

  /** `haversine(lon1, lat1, lon2, lat2)` in metres. Its floating-point
      formula is not modelled: every result about it holds for any function. */
  type Distance = (real, real, real, real) -> real
}
