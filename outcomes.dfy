/** Failure-compatible results shared by the sampling pipeline. */
module Outcomes {

  /** The ways a computation of the pipeline can stop without a value. */
  datatype Error =
    | SamplesExhausted   // the supplied random draws ran out before enough points were accepted
    | IndexError         // an order-statistic index fell outside the sorted point array
    | AssertionFailed    // the volume bracket assertion of the waterline locator fired

  datatype Result<+T> = Success(value: T) | Failure(error: Error)

  datatype Option<+T> = None | Some(value: T)
}
