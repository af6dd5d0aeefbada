/** Small value wrappers shared by the view-model modules. */
module Wrappers {

  /** A reference that may be null: `None` stands for C#'s `null`. */
  datatype Option<+T> = None | Some(value: T)

  /** The result of an awaited client call: the value, or the exception it threw. */
  datatype Fetch<+T> = Fetched(value: T) | FetchFailed(message: string)
}
