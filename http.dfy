/** What a handler or a middleware hands back for one request. */
module Http {
  import opened Wrappers

  /** One failed schema constraint: the path and the schema's message. */
  datatype Violation = Violation(path: string, message: string)

  datatype Failure =
    | Message(text: string)
    | Invalid(violations: seq<Violation>)

  /**
   * Sent: a success body written by the handler.
   * Refused: an error body written by the handler itself.
   * Raised: an error passed on to the error middleware, with the status the
   *         handler set beforehand, if any.
   */
  datatype Reply<T> =
    | Sent(status: nat, data: T)
    | Refused(status: nat, failure: Failure)
    | Raised(statusSet: Option<nat>, failure: Failure)

  /** The outcome of a middleware gate: go on with a principal, or one error response. */
  datatype Gate<P> = Pass(principal: P) | Deny(status: nat, message: string)

  /** JavaScript truthiness of an optional string body field. */
  predicate Present(field: Option<string>) {
    field.Some? && field.value != ""
  }

  /** The value of a field that is known to be present, "" otherwise. */
  function TextOf(field: Option<string>): string {
    if field.Some? then field.value else ""
  }

  /** An error reply for a gate that refused the request. */
  function Denied<T, P>(g: Gate<P>): (r: Reply<T>)
    requires g.Deny?
    ensures r.Refused? && r.status == g.status && r.failure == Message(g.message)
  {
    Refused(g.status, Message(g.message))
  }

  /** What a middleware did: call the next handler, or send one response. */
  datatype Event = Next | Respond(status: nat, message: string)

  /** The single event a gate outcome stands for. */
  function EventOf<P>(g: Gate<P>): (e: Event)
    ensures e.Next? <==> g.Pass?
    ensures g.Deny? ==> e == Respond(g.status, g.message)
  {
    match g
    case Pass(_) => Next
    case Deny(status, message) => Respond(status, message)
  }
}
