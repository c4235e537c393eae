/** The JavaScript values that can flow out of a composed pipeline, and the
    exceptions it can raise. */
module Values {

  /** What a call can return: `undefined`, a number, or the fresh empty
      function `() => {}` that dispatch hands back for a slot holding no
      function (index.js:18-20). */
  datatype Value = Undefined | Num(n: int) | EmptyFn

  /** The two built-in error classes the code throws. A handler may throw
      either of them with any message. */
  datatype Exception = TypeError(message: string) | Error(message: string)

  /** The result of calling something: it returns a value or throws. */
  datatype Outcome = Ok(value: Value) | Err(exception: Exception)

  /** Thrown by `compose` when its argument is not an array (index.js:2). */
  const NotArrayError: Exception := TypeError("Middleware stack must be an array!")

  /** Thrown by `compose` when an element is not a function (index.js:4). */
  const NotFunctionError: Exception := TypeError("Middleware must be composed of functions!")

  /** Thrown by dispatch when a position is dispatched again (index.js:10):
      a plain `Error`, not a `TypeError`. */
  const MultipleNextError: Exception := Error("next() called multiple times")
}
