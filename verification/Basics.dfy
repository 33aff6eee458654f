/** Datatypes shared by the modules of the model. */
module Basics {

  datatype Option<+T> = None | Some(value: T)

  /** What an operation reports about the execution of its command. */
  datatype Outcome = NotExecuted | Completed | Unknown
}
