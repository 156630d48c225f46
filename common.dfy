/** Small wrapper types shared by every module of the tracker model. */
module Common {

  /** A value that may be absent: an unset JavaScript property, a missing payload. */
  datatype Option<T> = None | Some(value: T)

  /**
   * The outcome of evaluating a piece of the tracker that may throw: `Thrown` stands
   * for a JavaScript exception (a TypeError from a method called on `undefined`, a
   * SyntaxError from an invalid regular expression) that escapes the evaluation.
   */
  datatype Result<T> = Ok(value: T) | Thrown
}
