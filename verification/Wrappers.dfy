/** What several parts of the model share. */
module Wrappers {

  datatype Option<+T> = None | Some(value: T)

  // GetMaxVal<float>() and GetValidMaxCopyCost()
  const UNSUPPORTED: real := 340282346638528859811704183484516925440.0
  const VALID_MAX_COPY_COST: real := UNSUPPORTED * 0.8
}
