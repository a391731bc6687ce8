/** Small wrapper types shared by the whole model. */
module Base {

  /** Python's `None` or a present value. */
  datatype Option<+T> = None | Some(value: T)

  /**
   * What a call into code outside the model did: it returned a value, or it
   * raised an exception. State that the caller changed before the call stays
   * changed when the call raises.
   */
  datatype Outcome<+T> = Done(value: T) | Raised
}
