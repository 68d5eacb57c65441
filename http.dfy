/**
 * What an Express middleware does with a request: answer it, pass it on with
 * `next()`, or neither, when an awaited call rejects and nothing catches it.
 */
module Http {
  import opened Common

  /** `res.status(status).json({ message })`, `next()`, or an unhandled rejection that does neither. */
  datatype Action = Respond(status: int, message: string) | Next | Unanswered

  /**
   * A middleware's decision, with the argument it handed to its collaborator
   * (`validateToken`, `exists`) or `None` when it did not consult it. At most
   * one of "a response is written" and "`next` is called" happens, by the shape
   * of `Action`.
   */
  datatype Decision = Decision(consulted: Option<string>, action: Action)
}
