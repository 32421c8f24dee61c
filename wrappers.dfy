/** Failure-carrying values shared by the whole model. */
module Wrappers {

  /** `None` stands for "no value": a parse that failed, or a Python
      exception that escaped the function being modelled. */
  datatype Option<+T> = None | Some(value: T)
}
