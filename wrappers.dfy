/** The absence-or-value wrapper used for Python calls that may raise. */
module Wrappers {

  /** `None` stands for "the Python call raised"; `Some(v)` for a normal return of `v`. */
  datatype Option<+T> = None | Some(value: T)
}
