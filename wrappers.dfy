/** Optional values, results that may carry one of the exceptions the plugin
    can raise, and the outcome of an operation that returns nothing. */
module Wrappers {

  datatype Option<+T> = None | Some(value: T)

  /** The exceptions the plugin's code can raise. None of them is caught
      anywhere in the plugin, so each one ends the operation that raised it. */
  datatype Error =
    | MissingAttribute(tag: string, attribute: string)  // KeyError from tag["..."]
    | InvalidInteger(text: string)                      // ValueError from int(...)
    | YearOutOfRange(year: int)                         // ValueError from datetime(year, 1, 1)
    | NoPrimaryName                                     // TypeError from None["value"]
    | RequestFailed(url: string)                        // the host's browser failed to fetch or parse

  /** A value, or the exception that was raised instead; usable with `:-`. */
  datatype Result<+T> = Ok(value: T) | Err(error: Error) {
    predicate IsFailure() { Err? }

    function PropagateFailure<U>(): Result<U>
      requires Err?
    {
      Err(error)
    }

    function Extract(): T
      requires Ok?
    {
      value
    }
  }

  /** How an operation that returns nothing ended: normally, or by an exception. */
  datatype Outcome = Pass | Fail(error: Error)
}
