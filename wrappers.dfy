/** Optional values, fallible results and the errors the tracker reports.

    The program reports every recoverable failure through one dynamic error
    value; here each distinct message becomes one constructor of `Error`, so
    that contracts can say which failure an operation reports. */
module Wrappers {

  datatype Option<+T> = None | Some(value: T)

  datatype Result<+T> = Ok(value: T) | Err(error: Error) {
    predicate IsFailure() { Err? }

    function PropagateFailure<U>(): Result<U>
      requires Err?
    {
      Err(error)
    }

    function Extract(): T
      requires Ok?
    {
      value
    }
  }

  datatype Error =
    | ShortStringEmpty                        // short text with no characters
    | ShortStringTooLong                      // short text over the 50-character threshold
    | InvalidTag(text: string)                // a tag character outside alphanumerics and hyphen
    | InvalidCategory(text: string)           // not one of the seven category names
    | InvalidPriority(text: string)           // not a priority name or digit
    | InvalidWeekday(text: string)            // not a lower-case English weekday name
    | InvalidFixedDate                        // not a day/month/year date
    | InvalidCount(unit: string, text: string) // the count after days/, weeks/ or months/ is not a usize
    | UnknownTimeUnit(text: string)           // no days/, weeks/ or months/ prefix
    | InvalidSortRule(text: string)           // not one of the four sort keys
    | NoTaskAtId(id: nat)                     // identifier not below the number of tasks
    | UnknownBlockingId(id: nat)              // a blocking identifier not below the number of tasks
    | AlreadyStarted                          // start on a task whose last status is not NotStarted
    | NotCompleted                            // outcome asked of a task whose last status is not Completed
    | InvalidTagList(text: string)            // reported by the comma-separated tag-list parser
}
