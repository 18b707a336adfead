/** Optional values and failure outcomes shared by every module of the model. */
module Wrappers {

  /** Kotlin's nullable `T?`: `None` stands for `null`. */
  datatype Option<+T> = None | Some(value: T) {
    function GetOr(default: T): T {
      match this
      case Some(v) => v
      case None => default
    }
  }

  /** A conversion that either succeeds or throws. */
  datatype Result<+R, +E> = Success(value: R) | Failure(error: E)

  /**
   * How a call into the store ends: normally, or by throwing an exception
   * whose `message` may itself be null.
   */
  datatype Outcome = Completes | Throws(message: Option<string>)

  /** A nullable text inside a Kotlin string template: `null` prints as "null". */
  function TemplateText(s: Option<string>): string
  {
    s.GetOr("null")
  }
}
