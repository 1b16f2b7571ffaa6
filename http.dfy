/** What an Express middleware or route handler does with a request. */
module Http {

  /** A JavaScript error value: its `name` and `message`. */
  datatype Failure = Failure(name: string, message: string)

  /**
   * The three ways a handler can finish: it sends a response with a status and a body,
   * it calls `next()` to pass the request on, or it calls `next(error)`.
   */
  datatype Outcome<B> =
    | Respond(status: int, body: B)
    | Next
    | NextError(error: Failure)

  /** The response bodies of the routes: `{ error: message }` or a data value. */
  datatype Body<T> = ErrorMessage(error: string) | Data(value: T)

  /** One zod issue: the path of the offending key and its message. */
  datatype Issue = Issue(path: seq<string>, message: string)

  /**
   * The result of a zod `parse`: the parsed value, a `ZodError` with its issues, or some
   * other exception thrown while parsing (a refinement callback that throws, say).
   */
  datatype Parsed<T> = Parsed(value: T) | Rejected(issues: seq<Issue>) | Thrown(error: Failure)

  /** The error a database statement raises (a constraint violation, say). */
  function DbError(message: string): Failure {
    Failure("DatabaseError", message)
  }

  /** A response `res.status(status).json({ error: message })`. */
  function ErrorReply<T>(status: int, message: string): Outcome<Body<T>> {
    Respond(status, ErrorMessage(message))
  }
}
