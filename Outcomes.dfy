/** The failures of the two entry points, and the result type that carries them. */
module Outcomes {

  /** One constructor per raised exception. All but KeyError are ValueErrors
      of the validation code, named after their messages. */
  datatype Error =
    | PixWidthXNotPositive
    | PixWidthYNotPositive
    | PixCountXNotPositive
    | PixCountYNotPositive
    | KernelNotTwoDimensional
    | ZeroLengthCrossSection
    | PixCountNotPositive
    | KeyError

  datatype Option<T> = None | Some(value: T)

  datatype Result<T> = Success(value: T) | Failure(error: Error)
}
