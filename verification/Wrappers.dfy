/** Stock result types shared by the other modules. */
module Wrappers {

  datatype Option<+T> = None | Some(value: T)

  /** A command can be answered, fail before the server ran it, or lose its answer after the server ran it. */
  datatype Reply = Answered | NotRun | AnswerLost

  datatype Result<+T, +E> = Ok(value: T) | Err(error: E)
}
