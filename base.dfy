/** Shared vocabulary of the food-sharing backend: identifiers, timestamps,
    the authenticated caller and the outcome a handler reports. */
module Base {

  /** Document ids (mongoose ObjectIds) and user ids are opaque; the model
      draws fresh ones from a counter. */
  type Id = nat
  type UserId = nat

  /** Dates are milliseconds since the epoch, as a JavaScript `Date` holds them. */
  type Timestamp = int

  const DAY_MS: int := 24 * 60 * 60 * 1000
  const WEEK_MS: int := 7 * DAY_MS

  datatype Option<T> = None | Some(value: T)

  /** The roles the authentication layer attaches to `req.user`. */
  datatype Role = DonorRole | RecipientRole | AdminRole

  /** `req.user`: id, role and the address a request delivers to
      (absent when the user has none). */
  datatype Caller = Caller(id: UserId, role: Role, address: Option<string>)

  /** Why a handler refused; each carries the HTTP status the source attaches. */
  datatype Failure =
    | NotFound                          // "... not found with id of ..."
    | NotAuthorized                     // "User ... is not authorized ..."
    | NotAvailable                      // "This donation is not available"
    | AlreadyCollected                  // "Food item already collected"
    | MissingFields(fields: seq<string>) // "Missing required fields: ..."
    | FieldRequired(field: string)      // "<field> is required"
    | EmailExists                       // duplicate key on Volunteer.email
    | ValidationFailed                  // the schema refused the document
  {
    function Code(): (c: nat)
      ensures 400 <= c <= 500
      ensures c == 500 <==> this == ValidationFailed
      ensures this == NotFound ==> c == 404
      ensures this == NotAuthorized ==> c == 401
      ensures this != NotFound && this != NotAuthorized && this != ValidationFailed ==> c == 400
    {
      match this
      case NotFound => 404
      case NotAuthorized => 401
      case ValidationFailed => 500
      case _ => 400
    }
  }

  /** A handler's answer: 200 with data, 201 with the created document, or a failure. */
  datatype Outcome<T> = Ok(value: T) | Created(value: T) | Fail(failure: Failure)
  {
    function Code(): (c: nat)
      ensures Ok? <==> c == 200
      ensures Created? <==> c == 201
      ensures Fail? <==> c >= 400
    {
      match this
      case Ok(_) => 200
      case Created(_) => 201
      case Fail(f) => f.Code()
    }
  }

  /** JavaScript truthiness of an optional string field: absent and "" are falsy. */
  predicate Present(s: Option<string>) {
    s.Some? && s.value != ""
  }
}
