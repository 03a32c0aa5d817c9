/** The optional value used wherever the TypeScript source has `T | undefined` or `T | null`. */
module Wrappers {

  datatype Option<+T> = None | Some(value: T) {

    /** The value, or `default` when there is none (the `??` operator). */
    function GetOr(default: T): T {
      match this
      case Some(v) => v
      case None => default
    }
  }
}

/** A thrown JavaScript `Error`: its `name` and its `message` (an empty message stands for a missing one). */
module JsErrors {

  datatype JsError = JsError(name: string, message: string)

  /** What `new Error(message)` throws. */
  function PlainError(message: string): (e: JsError)
    ensures e.name == "Error" && e.message == message
  {
    JsError("Error", message)
  }
}
