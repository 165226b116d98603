/** The failures the scraper can raise, and a failure-compatible result type for them. */
module Outcomes {

  /** The exceptions the scraper raises, one constructor per cause. */
  datatype Error =
    | NoPageInformation    // ValueError: too few numbers in the page-info label (none; under five in the root script)
    | IndexOutOfRange      // IndexError: a list of numeric tokens is too short for a subscript
    | InconsistentLengths  // ValueError: parallel lists read from one page differ in length
    | PageNotFound         // the browser shows no page at its current location
    | OutOfFuel            // the pagination loop ran longer than the bound it was given

  datatype Result<+T> = Ok(value: T) | Err(error: Error) {
    predicate IsFailure() { Err? }

    function PropagateFailure<U>(): Result<U>
      requires Err?
    {
      Err(error)
    }

    function Extract(): T
      requires Ok?
    {
      value
    }
  }

  datatype Option<+T> = None | Some(value: T)
}
