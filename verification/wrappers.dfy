/** Small datatypes shared by the widget models. */
module Wrappers {

  /** An optional value, for JavaScript's `null`/`undefined`. */
  datatype Option<+T> = None | Some(value: T)

  /** What a user action against the store ended in: refused by local validation, done, or failed (error toast). */
  datatype Outcome = Rejected | Done | Failed
}
