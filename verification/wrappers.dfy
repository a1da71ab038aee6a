/** Results that the services share. */
module Wrappers {
  /** A value that may be absent: Python's `None` and the error returns of the checks. */
  datatype Option<+T> = None | Some(value: T)

  /** What became of saving a file that is opened for writing in place: done, given up
      before the file was opened, or broken off after, which leaves it unparsable. */
  datatype Save = Saved | Refused | Torn
}
