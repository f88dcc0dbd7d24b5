/** Values shared by the parameter validator and the request pipeline. */
module Outcomes {

  datatype Option<+T> = None | Some(value: T)

  datatype Result<+T, +E> = Success(value: T) | Failure(error: E)

  /**
   * What happens to a Node-style completion callback handed to an operation:
   * it is called once with no argument (`Done`), called once with an error
   * (`Failed`), or never called at all (`NoCallback`).
   */
  datatype Completion = Done | Failed(message: string) | NoCallback

  /**
   * The answer of the schema validator for one piece of data: whether it is
   * valid, and its error list already serialised as JSON text.
   */
  datatype Verdict = Verdict(valid: bool, errors: string)
}
