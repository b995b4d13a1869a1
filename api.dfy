/**
 * What the API route handlers have in common: the JSON reply with its
 * status code, the role tests on the session, and what a handler does to
 * the store. A handler is a function of the session (absent when nobody is
 * signed in), the request fields, the store and the clock; it returns the
 * reply, the store afterwards and the cache keys it drops.
 */
module Api {
  import opened Wrappers
  import opened Models
  import Rbac
  import Validation
  import Queries

  /**
   * A JSON reply: `{ success: true, data, message? }` (the message as `note`) with status 200,
   * `{ success: false, message }` with the given status, or
   * `{ success: false, message: 'Validation failed', errors }` with status 400.
   */
  datatype Reply<T> =
    | Ok(data: T, note: Option<string>)
    | Fail(status: nat, message: string)
    | Invalid(errors: seq<string>)
  {
    /** The HTTP status code sent with the reply. */
    function Status(): nat {
      match this
      case Ok(_, _) => 200
      case Fail(status, _) => status
      case Invalid(_) => 400
    }
  }

  function Unauthorized<T>(): Reply<T> { Fail(401, "Unauthorized") }
  function Forbidden<T>(): Reply<T> { Fail(403, "Forbidden") }
  function ServerError<T>(): Reply<T> { Fail(500, "Internal server error") }

  /** A handler's answer together with its effect on the store and on the cache. */
  datatype Outcome<T> = Outcome(reply: Reply<T>, db: Queries.Db, evicted: set<string>)

  /** An answer that leaves the store and the cache as they were. */
  function Refuse<T>(reply: Reply<T>, db: Queries.Db): (o: Outcome<T>)
    ensures o.db == db && o.evicted == {} && o.reply == reply
  {
    Outcome(reply, db, {})
  }

  /** `session.user.role` is one of the given role names. */
  predicate HasRole(s: Rbac.Session, names: set<string>) {
    s.role in names
  }

  /** The messages of a failed validation, in order. */
  function Messages(errors: seq<Validation.Error>): seq<string> {
    seq(|errors|, k requires 0 <= k < |errors| => Validation.Message(errors[k]))
  }
}
